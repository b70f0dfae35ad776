/** The separately built artefacts agree with each other and with the spec. */
module Agreement {
  import opened Seqs
  import opened Grouping
  import opened Limiter
  import opened Descriptors
  import opened Routes
  import opened RateLimits
  import opened LocalLimit
  import opened EnvoyFilters
  import opened Effect
  import opened Meaning
  import opened Preservation

  /** The entry by which Envoy asks for a limit: key and value. */
  function EntryOf(a: RouteAction): (string, string) {
    match a
    case GenericKey(value) => ("generic_key", value)
    case HeaderValueMatch(value, _) => ("header_match", value)
  }

  /** Some route action among the patches asks for the entry. */
  ghost predicate Asks(patches: seq<Patch>, entry: (string, string)) {
    exists i, j :: 0 <= i < |patches| && patches[i].RouteActions? && 0 <= j < |patches[i].actions| &&
      EntryOf(patches[i].actions[j]) == entry
  }

  lemma EntryOfAction(naming: Naming, d: Descriptor)
    ensures EntryOf(RouteActionOf(naming, d)) == (DescriptorKey(d), naming(d))
  {
  }

  /** What is placed has its action in the patch of its key. */
  lemma PlacedIsAsked(naming: Naming, places: seq<Placed>, order: seq<string>, patches: seq<Patch>, p: Placed)
    requires AreActionPatches(naming, places, order, patches) && p in places
    ensures Asks(patches, (DescriptorKey(p.d), naming(p.d)))
  {
    assert Key(p.rc) in Keys(places);
    var i :| 0 <= i < |order| && order[i] == Key(p.rc);
    assert IsActionPatch(naming, places, order[i], patches[i]);
    var group := Group(places, order[i]);
    InGroup(PlaceKey, places, order[i]);
    var j :| 0 <= j < |group| && group[j] == p;
    EntryOfAction(naming, p.d);
    assert patches[i].actions[j] == RouteActionOf(naming, p.d);
  }

  /** Every action comes from something that is placed. */
  lemma AskedIsPlaced(naming: Naming, places: seq<Placed>, order: seq<string>, patches: seq<Patch>, i: nat, j: nat)
    requires AreActionPatches(naming, places, order, patches)
    requires i < |patches| && patches[i].RouteActions? && j < |patches[i].actions|
    ensures exists p :: p in places && patches[i].actions[j] == RouteActionOf(naming, p.d)
  {
    assert IsActionPatch(naming, places, order[i], patches[i]);
    var group := Group(places, order[i]);
    InGroup(PlaceKey, places, order[i]);
    assert group[j] in places && patches[i].actions[j] == RouteActionOf(naming, group[j].d);
  }

  /** A limit that names a route and leaves its key to the controller is asked for by the compiled filter. */
  lemma RoutedLimitIsAsked(naming: Naming, descriptors: seq<Descriptor>, rls: string, patches: seq<Patch>,
      d: Descriptor)
    requires IsCompiled(naming, descriptors, rls, patches)
    requires d in descriptors && !IsCustom(d) && RouteConfigs(d.target) != []
    ensures Asks(patches, (DescriptorKey(d), naming(d)))
  {
    var actionPatches: seq<Patch>, actionOrder: seq<string>, bucketPatches: seq<Patch>, bucketOrder: seq<string> :|
      IsCompiledFrom(naming, descriptors, rls, patches, actionPatches, actionOrder, bucketPatches, bucketOrder);
    var p := Placed(d, RouteConfigs(d.target)[0]);
    InFilter(HasAction, descriptors);
    PlacedFrom(Routed(descriptors), p);
    PlacedIsAsked(naming, AllPlaces(Routed(descriptors)), actionOrder, actionPatches, p);
    var i, j :| 0 <= i < |actionPatches| && actionPatches[i].RouteActions? && 0 <= j < |actionPatches[i].actions| &&
      EntryOf(actionPatches[i].actions[j]) == (DescriptorKey(d), naming(d));
    assert patches[i] == actionPatches[i];
  }

  lemma ActionPatchesComeFirst(a: seq<Patch>, b: seq<Patch>, c: seq<Patch>, d: seq<Patch>, i: nat)
    requires forall k :: 0 <= k < |b| ==> b[k].GlobalFilter?
    requires forall k :: 0 <= k < |c| ==> c[k].LocalFilter?
    requires forall k :: 0 <= k < |d| ==> d[k].RouteBuckets?
    requires i < |a + b + c + d| && (a + b + c + d)[i].RouteActions?
    ensures i < |a| && (a + b + c + d)[i] == a[i]
  {
  }

  /** What the compiled filter asks for is asked for by the patches with route actions. */
  lemma AskedByActions(naming: Naming, descriptors: seq<Descriptor>, rls: string, patches: seq<Patch>,
      actionPatches: seq<Patch>, actionOrder: seq<string>, bucketPatches: seq<Patch>, bucketOrder: seq<string>,
      entry: (string, string))
    requires IsCompiledFrom(naming, descriptors, rls, patches, actionPatches, actionOrder, bucketPatches, bucketOrder)
    requires Asks(patches, entry)
    ensures Asks(actionPatches, entry)
  {
    hide AreActionPatches, EntryOf;
    BucketPatchKind(naming, AllPlaces(Filter(IsLocal, descriptors)), bucketOrder, bucketPatches);
    var i, j :| 0 <= i < |patches| && patches[i].RouteActions? && 0 <= j < |patches[i].actions| &&
      EntryOf(patches[i].actions[j]) == entry;
    ActionPatchesComeFirst(actionPatches,
      if Filter(IsGlobal, descriptors) == [] then [] else [GlobalFilter(RateLimiterServerCluster(rls))],
      if Filter(IsLocal, descriptors) == [] then [] else [LocalFilter],
      bucketPatches, i);
  }

  /** What patches with route actions ask for is the entry of something placed. */
  lemma AskedPlace(naming: Naming, places: seq<Placed>, order: seq<string>, patches: seq<Patch>,
      entry: (string, string))
    requires AreActionPatches(naming, places, order, patches) && Asks(patches, entry)
    ensures exists p: Placed :: p in places && entry == (DescriptorKey(p.d), naming(p.d))
  {
    hide AreActionPatches;
    var i, j :| 0 <= i < |patches| && patches[i].RouteActions? && 0 <= j < |patches[i].actions| &&
      EntryOf(patches[i].actions[j]) == entry;
    AskedIsPlaced(naming, places, order, patches, i, j);
    var p :| p in places && patches[i].actions[j] == RouteActionOf(naming, p.d);
    EntryOfAction(naming, p.d);
  }

  /** Every entry that the compiled filter asks for is that of a limit of the list. */
  lemma AskedLimit(naming: Naming, descriptors: seq<Descriptor>, rls: string, patches: seq<Patch>,
      entry: (string, string))
    requires IsCompiled(naming, descriptors, rls, patches) && Asks(patches, entry)
    ensures exists d :: d in descriptors && !IsCustom(d) && entry == (DescriptorKey(d), naming(d))
  {
    hide Asks;
    var actionPatches: seq<Patch>, actionOrder: seq<string>, bucketPatches: seq<Patch>, bucketOrder: seq<string> :|
      IsCompiledFrom(naming, descriptors, rls, patches, actionPatches, actionOrder, bucketPatches, bucketOrder);
    AskedByActions(naming, descriptors, rls, patches, actionPatches, actionOrder, bucketPatches, bucketOrder, entry);
    AskedPlace(naming, AllPlaces(Routed(descriptors)), actionOrder, actionPatches, entry);
    var p: Placed :| p in AllPlaces(Routed(descriptors)) && entry == (DescriptorKey(p.d), naming(p.d));
    PlacedFrom(Routed(descriptors), p);
    InFilter(HasAction, descriptors);
  }

  /** Every entry told to the rate-limit service is one that the set's filter asks for, if the limit names a route. */
  lemma ToldIsAsked(naming: Naming, descriptors: seq<Descriptor>, rls: string, patches: seq<Patch>, e: RlsEntry)
    requires IsCompiled(naming, descriptors, rls, patches) && NoCustom(descriptors)
    requires e in RlsEntries(naming, Filter(IsGlobal, descriptors))
    ensures exists d ::
      && d in descriptors && IsGlobal(d) && Expressible(d) && e == RlsEntryOf(naming, d)
      && (RouteConfigs(d.target) != [] ==> Asks(patches, (e.key, e.value)))
  {
    var global := Filter(IsGlobal, descriptors);
    RlsEntriesArePrefix(naming, global);
    InFilter(IsGlobal, descriptors);
    var i :| 0 <= i < |RlsEntries(naming, global)| && RlsEntries(naming, global)[i] == e;
    var d := global[i];
    assert d in global;
    if RouteConfigs(d.target) != [] {
      RoutedLimitIsAsked(naming, descriptors, rls, patches, d);
    }
  }

  /** The entries hold the one that Envoy asks for. */
  ghost predicate Tells(entries: seq<RlsEntry>, entry: (string, string)) {
    exists e :: e in entries && (e.key, e.value) == entry
  }

  /** When all global limits of a set can be expressed, the service is told of each of them. */
  lemma AllToldOf(naming: Naming, descriptors: seq<Descriptor>, d: Descriptor)
    requires forall x :: x in descriptors && IsGlobal(x) ==> Expressible(x)
    requires d in descriptors && IsGlobal(d)
    ensures Tells(RlsEntries(naming, Filter(IsGlobal, descriptors)), (DescriptorKey(d), naming(d)))
  {
    var global := Filter(IsGlobal, descriptors);
    var entries := RlsEntries(naming, global);
    InFilter(IsGlobal, descriptors);
    assert forall i :: 0 <= i < |global| ==> global[i] in global;
    RlsEntriesComplete(naming, global);
    var i :| 0 <= i < |global| && global[i] == d;
    assert entries[i] == RlsEntryOf(naming, d) && entries[i] in entries;
  }

  /**
   Whatever the filter asks for is the entry of some limit of the set; and when all intervals of the set's global limits
   are ones the service knows, it has been told the entry of every global limit, so also each that the filter asks for.
   */
  lemma AskedIsTold(naming: Naming, descriptors: seq<Descriptor>, rls: string, patches: seq<Patch>)
    requires IsCompiled(naming, descriptors, rls, patches)
    requires forall d :: d in descriptors && IsGlobal(d) ==> Expressible(d)
    ensures forall entry :: Asks(patches, entry) ==>
      exists d :: d in descriptors && !IsCustom(d) && entry == (DescriptorKey(d), naming(d))
    ensures forall d :: d in descriptors && IsGlobal(d) ==>
      Tells(RlsEntries(naming, Filter(IsGlobal, descriptors)), (DescriptorKey(d), naming(d)))
  {
    hide IsCompiled, Asks, Tells, RlsEntries, Expressible;
    forall entry | Asks(patches, entry)
      ensures exists d :: d in descriptors && !IsCustom(d) && entry == (DescriptorKey(d), naming(d))
    {
      AskedLimit(naming, descriptors, rls, patches, entry);
    }
    forall d | d in descriptors && IsGlobal(d)
      ensures Tells(RlsEntries(naming, Filter(IsGlobal, descriptors)), (DescriptorKey(d), naming(d)))
    {
      AllToldOf(naming, descriptors, d);
    }
  }

  /** The limits of a set of the spec; none if the spec does not mention the set. */
  function SpecOf(spec: SmartLimiterSpec, name: string): seq<Descriptor> {
    if spec.sets.Some? && name in spec.sets.value then spec.sets.value[name] else []
  }

  /**
   The set-level agreement of the artefacts, spelled out for one set: it has a filter and a status if some limit of it
   takes effect, and then the status shows those that do.
   */
  lemma SetAgreement(naming: Naming, ev: Evaluator, spec: SmartLimiterSpec, selector: map<string, string>,
      sets: seq<Subset>, efs: map<string, Option<EnvoyFilter>>, status: map<string, seq<Descriptor>>,
      global: seq<RlsEntry>, name: string)
    requires Agree(naming, ev, spec, selector, sets, efs, status, global)
    ensures name in efs <==> exists i :: 0 <= i < |sets| && sets[i].name == name
    ensures name in efs && efs[name].Some? <==> name in status
    ensures name in efs && efs[name].Some? <==> name in efs && exists d :: d in SpecOf(spec, name) && TakesEffect(ev, d)
    ensures name in status ==> status[name] == Map(Reported(ev), Filter(InEffect(ev), SpecOf(spec, name)))
  {
    hide IsCompiled, Valid;
    ValidOfSpec(ev, spec, name);
    InFilter(InEffect(ev), SpecOf(spec, name));
    var effective := Filter(InEffect(ev), SpecOf(spec, name));
    if effective != [] {
      assert effective[0] in effective;
    }
    if name in efs {
      assert IsFilterOf(naming, ValidOf(ev, spec, name), spec.rls, selector + LabelsOf(sets, name), efs[name]);
      var s :| s in sets && s.name == name;
    }
  }

  lemma ValidOfSpec(ev: Evaluator, spec: SmartLimiterSpec, name: string)
    ensures ValidOf(ev, spec, name) == Map(Reported(ev), Filter(InEffect(ev), SpecOf(spec, name)))
  {
    if spec.sets.Some? && name in spec.sets.value {
      ValidExactly(ev, spec.sets.value[name]);
    }
  }

  /** An entry is in the list exactly if some set contributes it. */
  lemma InGlobalList(naming: Naming, ev: Evaluator, spec: SmartLimiterSpec, sets: seq<Subset>, e: RlsEntry)
    ensures e in FlatMap(EntriesOf(naming, ev, spec), sets) <==>
      exists set' :: set' in sets && e in RlsEntries(naming, Filter(IsGlobal, ValidOf(ev, spec, set'.name)))
  {
    hide ValidOf, RlsEntries, FlatMap;
    InFlatMap(EntriesOf(naming, ev, spec), sets, e);
    if e in FlatMap(EntriesOf(naming, ev, spec), sets) {
      var i :| 0 <= i < |sets| && e in EntriesOf(naming, ev, spec)(sets[i]);
      assert sets[i] in sets;
    }
  }

  /** What a set contributes to the list: its global limits in effect, in order, up to the first that cannot be told. */
  lemma SetContributes(naming: Naming, ev: Evaluator, spec: SmartLimiterSpec, set': Subset)
    ensures var shared := Filter(GlobalInEffect(ev), SpecOf(spec, set'.name));
      var entries := EntriesOf(naming, ev, spec)(set');
      && |entries| <= |shared|
      && (forall i :: 0 <= i < |entries| ==> IsToldAs(naming, ev, shared[i], entries[i]))
      && (|entries| < |shared| ==> !IsTellable(shared[|entries|]))
  {
    hide IsToldAs, GlobalInEffect, IsTellable;
    ToldExactly(naming, ev, SpecOf(spec, set'.name));
    NoneValid(ev);
  }

  lemma NoneValid(ev: Evaluator)
    ensures Valid(ev, []) == []
  {
  }

  /** A limit that took effect can be expressed exactly if its interval is one the service knows. */
  lemma EvaluatedExpressible(ev: Evaluator, descriptors: seq<Descriptor>, d: Descriptor)
    requires d in Valid(ev, descriptors)
    ensures Expressible(d) <==> IsTellable(d)
  {
    InFlatMap(EvaluatedBy(ev), descriptors, d);
    var i :| 0 <= i < |descriptors| && d in EvaluatedBy(ev)(descriptors[i]);
    PrintedQuota(ev.quota(descriptors[i].action.value.quota).value, d.action.value);
  }

  /** The set that a told entry comes from, and the limit of the spec that it tells of, with its rate. */
  ghost predicate ComesFrom(naming: Naming, ev: Evaluator, spec: SmartLimiterSpec,
      efs: map<string, Option<EnvoyFilter>>, name: string, d: Descriptor, e: RlsEntry)
  {
    && name in efs && efs[name].Some?
    && d in SpecOf(spec, name) && IsToldAs(naming, ev, d, e)
    && (RouteConfigs(d.target) != [] ==> Asks(efs[name].value.patches, (e.key, e.value)))
  }

  /**
   Every entry of the list that goes to the rate-limit service tells of a global limit in effect, of a set that has a
   filter, and that filter asks for the entry if the limit names a route.
   */
  lemma GlobalListIsAsked(naming: Naming, ev: Evaluator, spec: SmartLimiterSpec, selector: map<string, string>,
      sets: seq<Subset>, efs: map<string, Option<EnvoyFilter>>, status: map<string, seq<Descriptor>>,
      global: seq<RlsEntry>, e: RlsEntry)
    requires Agree(naming, ev, spec, selector, sets, efs, status, global)
    requires e in global
    ensures exists name, d :: ComesFrom(naming, ev, spec, efs, name, d, e)
  {
    hide Valid, Asks, RlsEntries, IsCompiled, RouteConfigs, IsToldAs, AsReported, TakesEffect;
    InFlatMap(EntriesOf(naming, ev, spec), sets, e);
    var i :| 0 <= i < |sets| && e in EntriesOf(naming, ev, spec)(sets[i]);
    var name := sets[i].name;
    var entries, shared := EntriesOf(naming, ev, spec)(sets[i]), Filter(GlobalInEffect(ev), SpecOf(spec, name));
    SetContributes(naming, ev, spec, sets[i]);
    var k :| 0 <= k < |entries| && entries[k] == e;
    var d := shared[k];
    InFilter(GlobalInEffect(ev), SpecOf(spec, name));
    assert d in shared;
    assert name in efs;
    ToldLimitIsAsked(naming, ev, spec, selector, sets, efs, name, d, e);
    assert ComesFrom(naming, ev, spec, efs, name, d, e);
  }

  lemma ToldLimitIsAsked(naming: Naming, ev: Evaluator, spec: SmartLimiterSpec, selector: map<string, string>,
      sets: seq<Subset>, efs: map<string, Option<EnvoyFilter>>, name: string, d: Descriptor, e: RlsEntry)
    requires FiltersAgree(naming, ev, spec, selector, sets, efs)
    requires name in efs && d in SpecOf(spec, name) && IsToldAs(naming, ev, d, e)
    ensures efs[name].Some? && (RouteConfigs(d.target) != [] ==> Asks(efs[name].value.patches, (e.key, e.value)))
  {
    hide Valid, Asks, IsCompiled, RouteConfigs, LabelsOf, Names;
    var valid, reported := ValidOf(ev, spec, name), AsReported(ev, d);
    assert IsFilterOf(naming, valid, spec.rls, selector + LabelsOf(sets, name), efs[name]);
    InEffectIsValid(ev, spec, name, d);
    if RouteConfigs(d.target) != [] {
      RoutedLimitIsAsked(naming, valid, spec.rls, efs[name].value.patches, reported);
    }
  }

  lemma InEffectIsValid(ev: Evaluator, spec: SmartLimiterSpec, name: string, d: Descriptor)
    requires d in SpecOf(spec, name) && TakesEffect(ev, d)
    ensures AsReported(ev, d) in ValidOf(ev, spec, name)
  {
    hide AsReported, TakesEffect, ValidOf;
    var effective := Filter(InEffect(ev), SpecOf(spec, name));
    ValidOfSpec(ev, spec, name);
    InFilter(InEffect(ev), SpecOf(spec, name));
    var i :| 0 <= i < |effective| && effective[i] == d;
    assert Map(Reported(ev), effective)[i] == AsReported(ev, d);
  }

  lemma NoneTold(naming: Naming)
    ensures RlsEntries(naming, Filter(IsGlobal, [])) == []
  {
  }

  /**
   Conversely, for a set whose global limits in effect have intervals that the service knows: what the set's filter
   asks for is the entry of a limit of the set in effect, and each global one of them is in the list that goes to the
   service, with its rate.
   */
  lemma FilterIsTold(naming: Naming, ev: Evaluator, spec: SmartLimiterSpec, selector: map<string, string>,
      sets: seq<Subset>, efs: map<string, Option<EnvoyFilter>>, status: map<string, seq<Descriptor>>,
      global: seq<RlsEntry>, name: string)
    requires Agree(naming, ev, spec, selector, sets, efs, status, global)
    requires name in efs && efs[name].Some?
    requires forall d :: d in SpecOf(spec, name) && IsGlobalInEffect(ev, d) ==> IsTellable(d)
    ensures forall entry :: Asks(efs[name].value.patches, entry) ==>
      exists d :: d in SpecOf(spec, name) && TakesEffect(ev, d) && entry.1 == naming(AsReported(ev, d))
    ensures forall d :: d in SpecOf(spec, name) && IsGlobalInEffect(ev, d) ==>
      exists e :: e in global && IsToldAs(naming, ev, d, e)
  {
    hide Asks, IsCompiled, IsToldAs, IsTellable, AsReported, FiltersAgree, EntriesOf, SpecOf;
    forall entry | Asks(efs[name].value.patches, entry)
      ensures exists d :: d in SpecOf(spec, name) && TakesEffect(ev, d) && entry.1 == naming(AsReported(ev, d))
    {
      AskedInEffect(naming, ev, spec, selector, sets, efs, name, entry);
    }
    forall d | d in SpecOf(spec, name) && IsGlobalInEffect(ev, d)
      ensures exists e :: e in global && IsToldAs(naming, ev, d, e)
    {
      SetOf(naming, ev, spec, selector, sets, efs, name);
      var s :| s in sets && s.name == name;
      ToldInList(naming, ev, spec, sets, s, d);
    }
  }

  lemma SetOf(naming: Naming, ev: Evaluator, spec: SmartLimiterSpec, selector: map<string, string>,
      sets: seq<Subset>, efs: map<string, Option<EnvoyFilter>>, name: string)
    requires FiltersAgree(naming, ev, spec, selector, sets, efs) && name in efs
    ensures exists s :: s in sets && s.name == name
  {
  }

  lemma AskedInEffect(naming: Naming, ev: Evaluator, spec: SmartLimiterSpec, selector: map<string, string>,
      sets: seq<Subset>, efs: map<string, Option<EnvoyFilter>>, name: string, entry: (string, string))
    requires FiltersAgree(naming, ev, spec, selector, sets, efs)
    requires name in efs && efs[name].Some? && Asks(efs[name].value.patches, entry)
    ensures exists d :: d in SpecOf(spec, name) && TakesEffect(ev, d) && entry.1 == naming(AsReported(ev, d))
  {
    hide Valid, Asks, IsCompiled, AsReported, TakesEffect, SpecOf, LabelsOf, Names, DescriptorKey;
    var valid := ValidOf(ev, spec, name);
    var effective := Filter(InEffect(ev), SpecOf(spec, name));
    assert IsFilterOf(naming, valid, spec.rls, selector + LabelsOf(sets, name), efs[name]);
    AskedLimit(naming, valid, spec.rls, efs[name].value.patches, entry);
    var v :| v in valid && entry == (DescriptorKey(v), naming(v));
    ValidOfSpec(ev, spec, name);
    InFilter(InEffect(ev), SpecOf(spec, name));
    var i :| 0 <= i < |valid| && valid[i] == v;
    assert effective[i] in effective;
  }

  lemma ToldInList(naming: Naming, ev: Evaluator, spec: SmartLimiterSpec, sets: seq<Subset>, s: Subset, d: Descriptor)
    requires s in sets && d in SpecOf(spec, s.name) && IsGlobalInEffect(ev, d)
    requires forall x :: x in SpecOf(spec, s.name) && IsGlobalInEffect(ev, x) ==> IsTellable(x)
    ensures exists e :: e in FlatMap(EntriesOf(naming, ev, spec), sets) && IsToldAs(naming, ev, d, e)
  {
    hide IsToldAs, IsTellable, EntriesOf, SpecOf, IsGlobalInEffect, FlatMap;
    var e := ToldInSet(naming, ev, spec, s, d);
    var k :| 0 <= k < |sets| && sets[k] == s;
    InFlatMap(EntriesOf(naming, ev, spec), sets, e);
  }

  lemma ToldInSet(naming: Naming, ev: Evaluator, spec: SmartLimiterSpec, s: Subset, d: Descriptor) returns (e: RlsEntry)
    requires d in SpecOf(spec, s.name) && IsGlobalInEffect(ev, d)
    requires forall x :: x in SpecOf(spec, s.name) && IsGlobalInEffect(ev, x) ==> IsTellable(x)
    ensures e in EntriesOf(naming, ev, spec)(s) && IsToldAs(naming, ev, d, e)
  {
    hide IsToldAs, IsTellable, EntriesOf, SpecOf, IsGlobalInEffect, Filter;
    var shared, entries := Filter(GlobalInEffect(ev), SpecOf(spec, s.name)), EntriesOf(naming, ev, spec)(s);
    SetContributes(naming, ev, spec, s);
    InFilter(GlobalInEffect(ev), SpecOf(spec, s.name));
    forall i | 0 <= i < |shared|
      ensures IsTellable(shared[i])
    {
      assert shared[i] in shared;
      assert GlobalInEffect(ev)(shared[i]) == IsGlobalInEffect(ev, shared[i]);
    }
    assert d in shared;
    var i :| 0 <= i < |shared| && shared[i] == d;
    e := entries[i];
  }

  // ----- From the spec to the limits of a request -----

  /**
   What a limit of the spec asks for on a route: its evaluated quota per its interval, if it takes effect and matches.
   */
  function SpecLimits(naming: Naming, ev: Evaluator, re: Regex, r: RouteId, headers: Headers, d: Descriptor):
      seq<LocalDescriptor>
  {
    if TakesEffect(ev, d) && d.action.value.strategy != "global" && MatchesAll(re, headers, d) then
      var tokens := QuotaOf(ev, d) % 0x1_0000_0000;
      var bucket := TokenBucket(tokens, tokens, d.action.value.fillInterval);
      var key := if d.matches == [] then "generic_key" else "header_match";
      var limit := LocalDescriptor(key, naming(AsReported(ev, d)), bucket);
      Map(rc => limit, Filter(rc => Covers(r, rc), RouteConfigs(d.target)))
    else
      []
  }

  function SpecLimitsOf(naming: Naming, ev: Evaluator, re: Regex, r: RouteId, headers: Headers):
    Descriptor -> seq<LocalDescriptor>
  {
    d => SpecLimits(naming, ev, re, r, headers, d)
  }

  /** What a list of places asks for on a route. */
  ghost function Asked(naming: Naming, re: Regex, r: RouteId, headers: Headers, places: seq<Placed>):
      seq<LocalDescriptor>
  {
    Map(LimitOn(naming), Filter((p: Placed) => MatchesAll(re, headers, p.d), Covering(places, r)))
  }

  lemma AskedAppend(naming: Naming, re: Regex, r: RouteId, headers: Headers, a: seq<Placed>, b: seq<Placed>)
    ensures Asked(naming, re, r, headers, a + b) == Asked(naming, re, r, headers, a) + Asked(naming, re, r, headers, b)
  {
    FilterAppend((p: Placed) => Covers(r, p.rc), a, b);
    FilterAppend((p: Placed) => MatchesAll(re, headers, p.d), Covering(a, r), Covering(b, r));
  }

  /** One limit that takes effect. */
  lemma AskedOfLimit(naming: Naming, re: Regex, r: RouteId, headers: Headers, d: Descriptor)
    requires d.action.Some?
    ensures Asked(naming, re, r, headers, Places(d)) ==
      if MatchesAll(re, headers, d) then
        Map(rc => LocalDescriptorOf(naming, d), Filter(rc => Covers(r, rc), RouteConfigs(d.target)))
      else
        []
  {
    var rcs := RouteConfigs(d.target);
    var place, covers := (rc: RouteConfig) => Placed(d, rc), (rc: RouteConfig) => Covers(r, rc);
    FilterMap((p: Placed) => Covers(r, p.rc), covers, place, rcs);
    var covering := Covering(Places(d), r);
    assert covering == Map(place, Filter(covers, rcs));
    if MatchesAll(re, headers, d) {
      FilterAll((p: Placed) => MatchesAll(re, headers, p.d), covering);
    } else {
      FilterNone((p: Placed) => MatchesAll(re, headers, p.d), covering);
    }
  }

  /** A limit that takes effect keeps matchers, routes and interval, and its bucket holds the evaluated quota. */
  lemma EvaluatedLimit(naming: Naming, ev: Evaluator, d: Descriptor)
    requires TakesEffect(ev, d)
    ensures var e := AsReported(ev, d);
      && Evaluated(ev, d) == [e] && e.action.Some?
      && e.matches == d.matches && e.target == d.target
      && (IsLocal(e) <==> d.action.value.strategy != "global")
      && var tokens := QuotaOf(ev, d) % 0x1_0000_0000;
         LocalDescriptorOf(naming, e) ==
           LocalDescriptor(if d.matches == [] then "generic_key" else "header_match", naming(e),
             TokenBucket(tokens, tokens, d.action.value.fillInterval))
  {
    EvaluatedExactly(ev, d);
    PrintedQuota(QuotaOf(ev, d), AsReported(ev, d).action.value);
  }

  lemma NothingAsked(naming: Naming, re: Regex, r: RouteId, headers: Headers)
    ensures Asked(naming, re, r, headers, []) == []
  {
  }

  lemma AskedOfSpecLimit(naming: Naming, ev: Evaluator, re: Regex, r: RouteId, headers: Headers, d: Descriptor)
    ensures Asked(naming, re, r, headers, AllPlaces(Filter(IsLocal, Evaluated(ev, d)))) ==
      SpecLimits(naming, ev, re, r, headers, d)
  {
    hide Evaluated, AsReported, LocalDescriptorOf, Asked, RouteConfigs;
    NothingAsked(naming, re, r, headers);
    EvaluatedExactly(ev, d);
    if TakesEffect(ev, d) {
      var e := AsReported(ev, d);
      EvaluatedLimit(naming, ev, d);
      if IsLocal(e) {
        AskedOfLimit(naming, re, r, headers, e);
        AllPlacesSnoc([], e);
        assert Filter(IsLocal, [e]) == [e] && [] + [e] == [e] && [] + Places(e) == Places(e);
      } else {
        assert Filter(IsLocal, [e]) == [];
      }
    }
  }

  lemma {:induction false} AskedOfSpec(naming: Naming, ev: Evaluator, re: Regex, r: RouteId, headers: Headers,
      descriptors: seq<Descriptor>)
    ensures Asked(naming, re, r, headers, AllPlaces(Filter(IsLocal, Valid(ev, descriptors)))) ==
      FlatMap(SpecLimitsOf(naming, ev, re, r, headers), descriptors)
  {
    if descriptors != [] {
      var head, tail := Evaluated(ev, descriptors[0]), Valid(ev, descriptors[1..]);
      AskedOfSpec(naming, ev, re, r, headers, descriptors[1..]);
      AskedOfSpecLimit(naming, ev, re, r, headers, descriptors[0]);
      FilterAppend(IsLocal, head, tail);
      FlatMapAppend(Places, Filter(IsLocal, head), Filter(IsLocal, tail));
      AskedAppend(naming, re, r, headers, AllPlaces(Filter(IsLocal, head)), AllPlaces(Filter(IsLocal, tail)));
    }
  }

  /**
   From the spec to a request: for every set of the service, the local limits a request meets under the set's filter are
   those of the spec's limits that take effect, cover its route and match its headers, each with its evaluated quota
   (modulo 2^32) per its interval. If merging replaces the table of limits of a route, no route may be covered under two
   keys of local limits.
   */
  lemma SpecPreservesMeaning(mode: MergeMode, naming: Naming, ev: Evaluator, spec: SmartLimiterSpec,
      selector: map<string, string>,
      sets: seq<Subset>, efs: map<string, Option<EnvoyFilter>>, status: map<string, seq<Descriptor>>,
      global: seq<RlsEntry>,
      name: string, re: Regex, r: RouteId, headers: Headers)
    requires Agree(naming, ev, spec, selector, sets, efs, status, global)
    requires name in efs && efs[name].Some?
    requires DistinctNames(naming, ValidOf(ev, spec, name)) && OneDirection(AllPlaces(ValidOf(ev, spec, name)))
    requires mode == Replace ==> NoOverlap(AllPlaces(Filter(IsLocal, ValidOf(ev, spec, name))))
    ensures spec.sets.Some? && name in spec.sets.value
    ensures multiset(Consulted(re, headers, ApplyAll(mode, r, efs[name].value.patches))) ==
      multiset(FlatMap(SpecLimitsOf(naming, ev, re, r, headers), spec.sets.value[name]))
  {
    var valid := ValidOf(ev, spec, name);
    assert IsFilterOf(naming, valid, spec.rls, selector + LabelsOf(sets, name), efs[name]);
    var descriptors := spec.sets.value[name];
    ValidShape(ev, descriptors);
    if mode == Append {
      CompilationPreservesMeaning(naming, re, valid, spec.rls, efs[name].value.patches, r, headers);
    } else {
      ReplacingPreservesMeaning(naming, re, valid, spec.rls, efs[name].value.patches, r, headers);
    }
    AskedOfSpec(naming, ev, re, r, headers, descriptors);
  }
}
