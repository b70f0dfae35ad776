# SmartLimiter controller: a verified model

The limiter module of slime turns a `SmartLimiter` into one Envoy filter per set of rate limits and into entries of a
ConfigMap that all services share, and keeps both in step with a cluster that changes. This project models that logic in
Dafny and proves what it guarantees, over all inputs, all orders in which Go visits a map, all interleavings and all runs.

| part | modules | what is proved |
|---|---|---|
| shared ConfigMap | `RlsConfigMap`, `Serial`, `RlsContents`, `Lifecycle`, `Deletion`, `Descriptors` | refreshes that read, compute and update under a version check are serialisable in every interleaving; what the list holds after any run; exactly when the substring test lets services wipe out each other's entries; exactly when a deletion keeps a service's entries away among interleaved calls |
| compiler of limits | `Routes`, `RateLimits`, `LocalLimit`, `Meaning`, `Preservation`, `Directions` | merged patches and buckets do to a request what the limits ask for; exactly which conditions on directions and keys that needs |
| artefacts of a spec | `EnvoyFilters`, `Effect`, `Agreement`, `Duplicates`, `Workload`, `Leftover`, `Refresh`, `Metrics` | filters, status and rate-limit-service entries agree with each other and with the spec, from the metrics and the spec down to the limits that a request meets on a workload, under all filters that select it; exactly when filters that were left behind show, and exactly when an entry occurs twice |
| filter objects | `FilterStore`, `Regeneration` | a pass drives every filter to what is desired or leaves it as it was; services do not touch each other's filters; exactly when refreshing again is certain to write nothing |
| controller memory | `Reconciler`, `Producer` | what is remembered of limiters and metrics over whole runs; pod counts per subset |
| member clusters | `WorkQueue`, `Multicluster`, `Secrets` | retries are bounded, the worker ends, and the books of registrations balance over whole runs; exactly when every configured cluster is registered |

`Seqs`, `Grouping`, `Text` and `Limiter` hold sequence laws, grouping by a key, the Go string operations and the vocabulary.

Code that works step by step is a method or a class method over the same state, with the same branches and loops; each is
proved against a function of its inputs or of the old state, and the lemmas speak about those functions. A loop over a Go
map takes its keys in any order. Errors of the API server are inputs.

## How to read the main results

- **A request.** `Meaning` gives the patched route a semantics: a patch applies where its match covers the route, an
  empty virtual host or route name covering every one; MERGE appends route actions; a local limit is consulted when some
  action of the route produces its entry. For the table of local limits, which is an entry of a map field, both ways of
  merging two patches of one route are modelled: `Append` and `Replace`. `CompilationPreservesMeaning` is the result for
  `Append`; `NoOverlapExactly` says that with `Replace` the result holds if and only if no route is covered under two keys,
  and `AnyPortOverlapsPort` names the family that breaks it. `SpecPreservesMeaning` carries both ways of merging from the
  spec to a request.
- **What is asked for.** What limits ask for is stated without the functions that generate patches and entries: which
  routes a limit covers (`Covers`, `MatchMeaning`), which limits take effect and how they are reported (`TakesEffect`,
  `EvaluatedExactly`), and what the rate-limit service is told of one (`IsToldAs`, `EntryMeaning`).
- **Several filters.** A pod of a subset is selected by the base filter and by the subset's. `WorkloadMeaning` states what
  a request meets under all filters that were generated and select its workload, in whatever order they are applied;
  `ApartExactly` says that with `Replace` the table of a route is right if and only if at most one of them has limits
  there, and `AnyPortInTwoSets` gives the case in which it is not.
- **Filters left behind.** The filter of a subset that was removed stays in the API server. `RefreshedWorkload` takes all
  stored filters of the service: after a refresh that succeeded, a request to a workload meets what the spec asks for if
  and only if no limit behind a filter that the refresh does not know covers its route and matches it.
  `RemovedSubsetStillLimits` is the run in which one does. That every stored filter has limits behind it is `RunHasOrigins`.
- **Metrics.** `MetricsReachRequests` begins earlier: conditions and quotas are evaluated over the overlay of all maps that
  arrived since the service's last reconciled deletion. `LateMetricsStay`: maps that arrive after that deletion count for
  whatever limiter comes next by the name.
- **Entries that occur twice.** A limit's name does not say which set it is in. `ToldOnceExactly`: the rate-limit service
  is told of every entry once if and only if no global limit is told of in two places; `SharedLimitToldTwice` is the limit
  that the base set and a subset share. `FilterTablesOnceExactly` is the same for tables: no local limit occurs twice, or
  names a route twice.
- **Directions.** A patch takes its direction from the first member of its group. `OneDirectionExactly`: the actions are
  right on all routes if and only if limits that share a key share a direction; `TwoDirectionsOnOneRoute` gives two limits
  that do not. What requests meet of local limits needs less: `LocalDirectedExactly` has the exact condition, under which
  keys of global limits only may mix directions.
- **Refreshing again.** Patches come out in the order in which Go visits its maps. `SecondRefreshExactly`: after a pass
  that succeeded, generating again from the same spec is certain to write nothing if and only if the limits of every set
  lie on one route key.
- **Checksums.** A limit's name ends in a 32-bit checksum. `CompilationByEntry` says what happens without assuming that
  names differ: a limit is then consulted for the requests of its namesakes too. With distinct names that is the limit's
  own requests (`SharedIsWanted`), and names are distinct if and only if checksums are (`DistinctChecksums`). Between
  services no names collide (`NamesTellServices`).
- **Ownership.** A refresh recognises its own entries by a substring. `ClaimsExactly` turns the test into one on names,
  and `KeepsAllExactly` states that all services keep their latest entries in all runs if and only if there are no two
  services of which the one's name is a suffix of the other's and its namespace a prefix. `ClaimsForeign` gives two
  services with ordinary names for which the test is too coarse.
- **Deletion.** With refreshes that are not interrupted, a reconciled deletion removes a service's entries for good
  (`DeletionRemoves`, `DeletedStaysGone`). Interleaved, it does not, and `Deletion` puts limiters and calls into one state:
  `OvertakenRefreshSurvivesDeletion` is the run that ends with the limiter gone, its deletion reconciled and its entry in
  the list. `StaysFreeExactly` is the condition: once the list holds no entry of a service without a limiter, none comes
  back before the limiter is created again if and only if no refresh of it with entries has yet to read the list, or is
  about to write over the version it is at. After a deletion that wrote, only refreshes that have yet to read are left
  (`WrittenDeletionExactly`).
- **Clusters left out.** A secret that changes is not processed again, and a cluster that two secrets hold goes with the
  one that came first. `RegistersAllExactly`: every configured cluster of an existing secret is registered in all runs, as
  soon as nothing is left to be done, if and only if no two secrets ever configure one cluster and no secret ever changes
  which it configures. Notifications that are still under way and look-ups made before them are part of the runs.
- **One remembered policy.** `lastUpdatePolicy` is shared by all limiters. `InterestExactly`: every limiter that is watched
  is of interest in all runs if and only if no two limiters ever carry equal specs and none carries the empty one.

Where code and documentation differ, the code is followed: the sample filter in `document/smartlimiter.md` matches a
listener in the patch that enables the local filter, but no match is generated (`controllers/envoy_local_limit.go:149-150`).
`controllers/envoy_filters.go:70-78` drops custom keys and values, so the branches for them are modelled in the functions
that have them, and the results for generated filters show that these branches are not taken (`EnvoyFilters.ValidShape`).

## Model

| member | source | states |
|---|---|---|
| Descriptors.ClaimsExactly | controllers/process.go:335-340 | for names and namespaces without punctuation, a service's substring test hits another's entry iff its name is a suffix and its namespace a prefix of the other's |
| Descriptors.ClaimsOwn | controllers/process.go:335-340 | a refresh recognises every entry of its own |
| Descriptors.ClaimsForeign | controllers/envoy_local_limit.go:322-325 | two services with ordinary labels of which one claims the other's entries |
| Descriptors.NameTellsChecksum | controllers/envoy_local_limit.go:322-325 | limits of one service share a printed name only if they share a checksum |
| Descriptors.NamesTellServices | controllers/envoy_local_limit.go:322-325 | limits of two services never share a printed name, whatever their checksums |
| Descriptors.NameSample | controllers/envoy_local_limit.go:322-325 | the printed form of a name, spelled out |
| Descriptors.LabelsArePlain | controllers/envoy_local_limit.go:322-325 | labels hold none of the characters that the printed name uses as punctuation |
| Text.AtoiOfPrinted | controllers/envoy_filters.go:66-73 | reading a quota that was printed with %d gives the quota back, for every 64-bit number |
| Text.FormatIntInjective | controllers/envoy_local_limit.go:81 | printed ports are distinct for distinct ports |
| Text.JoinSplit | controllers/envoy_local_limit.go:49-53 | splitting a string at a separator loses nothing |
| Routes.GenerateRouteConfigs | controllers/envoy_local_limit.go:44-66 | the loop yields, in order, the route of every route string of two parts, and the default inbound route when none is named |
| Routes.GenerateDefaultInboundRouteConfigs | controllers/envoy_local_limit.go:69-85 | one inbound default route, for the port or for all ports |
| Routes.NamedRouteRoundTrip | controllers/envoy_local_limit.go:48-59 | a route string is accepted iff it holds exactly one slash, and its key is the string itself |
| Routes.RouteConfigsShape | controllers/envoy_local_limit.go:44-85 | no part of a generated route holds a slash, and all routes of a target have one direction |
| Routes.RouteNamed | controllers/envoy_local_limit.go:47-62 | a target that names routes yields exactly the (virtual host, route) pairs that it names, in its direction |
| Routes.KeyRoundTrip | controllers/envoy_local_limit.go:40-42 | splitting a printed key gives virtual host and route back |
| Routes.KeyInjective | controllers/envoy_local_limit.go:40-42 | over all targets, routes with one key have one virtual host and one route |
| Routes.DefaultKeysTellPorts | controllers/envoy_local_limit.go:69-85 | keys of default routes are equal iff the ports are |
| RateLimits.GenerateGlobalRateLimitDescriptor | controllers/envoy_global_limit.go:103-126 | the result is the image of the longest prefix of limits that can be expressed: the first that cannot cuts the list off; what an entry says is `Effect.EntryMeaning` |
| RateLimits.RlsEntriesUnique | controllers/envoy_global_limit.go:103-126 | that description has one solution |
| RateLimits.RlsEntriesArePrefix | controllers/envoy_global_limit.go:103-126 | entry by entry, which limit an entry stands for, and why the list ends where it does |
| RateLimits.RlsEntriesComplete | controllers/envoy_global_limit.go:103-126 | when every limit can be expressed none is lost |
| RateLimits.UnitLasts | controllers/envoy_global_limit.go:129-148 | an interval has a unit iff it is 1, 60, 3600 or 86400 seconds, and the unit lasts exactly that long |
| RateLimits.PrintedQuota | controllers/envoy_local_limit.go:310-320 | a printed quota reaches the bucket as itself modulo 2^32, exactly for 0 to 2^32-1, and is read for the rate-limit service as itself, per the interval |
| LocalLimit.GenerateRouteRateLimitAction | controllers/envoy_local_limit.go:237-280 | no action for a custom key, else the generic key or the header matchers in order |
| Meaning.CustomMeaning | controllers/envoy_local_limit.go:295-308 | a bucket is for the custom key and value if both are given, else for the limit's own name under the key that tells whether headers are matched |
| Grouping.GroupByIsFilter | controllers/envoy_local_limit.go:91-106 | the map that the loops build holds, for each key, exactly the in-order filter of the items with that key, and no other key; used for (limit, route) pairs and for pods |
| Grouping.GroupsPartition | controllers/envoy_local_limit.go:91-106 | every item is in the group of its key only, as often as it occurs |
| LocalLimit.GroupSharesRoute | controllers/envoy_local_limit.go:126 | all members of a group have the virtual host and route that the group's patch matches on |
| LocalLimit.CollectRouteActions | controllers/envoy_local_limit.go:91-106 | the loops of the action pass compute that grouping of the limits that have an action |
| LocalLimit.GenerateHttpRouterPatch | controllers/envoy_local_limit.go:87-135 | in some order of the keys, one patch per key with the actions of its group, addressed by the group's first member |
| LocalLimit.CollectLocalLimits | controllers/envoy_local_limit.go:187-203 | the two maps of the local pass have equal domains and equally long, non-empty groups, so taking the first route is safe |
| LocalLimit.GenerateLocalRateLimitDescriptors | controllers/envoy_local_limit.go:282-308 | one entry and bucket per limit, in order |
| LocalLimit.GenerateLocalRateLimitPerFilterPatch | controllers/envoy_local_limit.go:182-229 | in some order of the keys, one patch per key with the buckets of its group |
| Meaning.MatchMeaning | controllers/envoy_local_limit.go:393-417 | a generated match applies to exactly the routes that the limit covers: outbound iff it says so, on its virtual host and route, an empty name being any |
| Meaning.DefaultRouteMeaning | controllers/envoy_local_limit.go:69-85 | a target without routes covers the default inbound route, of its port's virtual host or of every one |
| Meaning.NamedRouteMeaning | controllers/envoy_local_limit.go:44-62 | a target with routes covers exactly those that it names, on its side |
| Meaning.HeaderMeaning | controllers/envoy_local_limit.go:250-271 | the generated header matcher holds for exactly the requests for which the limit's matcher does, inversion and precedence included |
| Meaning.EmitMeaning | controllers/envoy_local_limit.go:237-280 | a limit's action produces the limit's entry for exactly the requests that match it |
| Meaning.AttachedCount | controllers/envoy_local_limit.go:108-133 | how often a pair is attached to a route by the patches, in any order of the keys |
| Meaning.MergeIsCovering | controllers/envoy_local_limit.go:108-133 | grouped patches, merged in any order, attach to a route the multiset that one patch per pair would |
| Preservation.ConsultedByEntry | controllers/envoy_local_limit.go:295-308 | a limit's bucket is consulted iff some limit on the route with the same entry matches |
| Preservation.SharedIsWanted | controllers/envoy_local_limit.go:322-325 | with distinct names these are the limits that match themselves |
| Preservation.DistinctChecksums | controllers/envoy_local_limit.go:322-325 | names are distinct iff no two different limits of the list have one checksum |
| Preservation.CompilationByEntry | controllers/envoy_filters.go:105-153 | what a request meets after all patches, with or without name collisions |
| Preservation.CompilationPreservesMeaning | controllers/envoy_filters.go:105-153 | with distinct names and one direction per key, every request on every route meets exactly the local limits that cover the route and match its headers, each with its bucket |
| Preservation.CompiledRoute | controllers/envoy_filters.go:105-153 | the actions and buckets that the merged patches attach to a route |
| Preservation.OneDirectionExactly | controllers/envoy_local_limit.go:126 | the actions are right on all routes iff limits that share a key share a direction |
| Preservation.TwoDirectionsOnOneRoute | controllers/envoy_local_limit.go:54-58 | two limits that name one route in two directions are a case in which they are not |
| Directions.LocalDirectedExactly | controllers/envoy_local_limit.go:223 | the local limits that requests meet are right on all routes iff each one that some request matches has, for each of its routes, its bucket in a patch of its direction and an action as wide in one |
| Directions.MissedLimit | controllers/envoy_local_limit.go:223 | a limit without them, and the request that misses it |
| Preservation.NoOverlapExactly | controllers/envoy_local_limit.go:205-227 | if a later patch replaces a route's table of limits, the tables are right on all routes iff no route is covered under two keys |
| Preservation.AnyPortOverlapsPort | controllers/envoy_local_limit.go:69-85 | a limit for all ports beside one for a single port is a case in which they are not |
| Preservation.ReplacingPreservesMeaning | controllers/envoy_filters.go:105-153 | without such overlap meaning is preserved under replacement too |
| Preservation.FiltersEnabled | controllers/envoy_filters.go:135-148 | the global filter is put in iff some limit is global, asking the service that the spec names or the installed one; the local filter iff some limit is local |
| EnvoyFilters.EvaluateDescriptors | controllers/envoy_filters.go:55-82 | the limits whose condition is true and whose quota evaluates, in order, with the quota printed |
| Effect.EvaluatedExactly | controllers/envoy_filters.go:58-79 | a limit takes effect iff its condition evaluates to true, it has an action, and its quota evaluates; then it is reported with the quota as a number |
| Effect.ValidExactly | controllers/envoy_filters.go:55-82 | a set is reported as its limits in effect, in order |
| Effect.EntryMeaning | controllers/envoy_global_limit.go:111-122 | a global limit in effect can be told of iff its interval is one of four, and then its entry says its quota modulo 2^32 per exactly that interval, under its key and name |
| Effect.ToldExactly | controllers/envoy_global_limit.go:103-126 | what is told of a set: an entry with its rate for each global limit in effect, in order, up to the first whose interval the service does not know |
| EnvoyFilters.ValidShape | controllers/envoy_filters.go:70-78 | what survives evaluation has an action and no custom key |
| EnvoyFilters.SplitByStrategy | controllers/envoy_filters.go:115-124 | the in-order filters of the global and of the local limits |
| EnvoyFilters.DescriptorsToEnvoyFilter | controllers/envoy_filters.go:105-153 | the filter selects the given workloads and holds the compilation of the limits |
| EnvoyFilters.DescriptorsToGlobalRateLimit | controllers/envoy_filters.go:155-163 | the rate-limit-service entries of the global limits |
| EnvoyFilters.GenerateSet | controllers/envoy_filters.go:50-100 | filter, surviving limits and entries of one set; nothing for a set that the spec does not mention |
| EnvoyFilters.GenerateSets | controllers/envoy_filters.go:49-102 | the three artefacts agree on the whole list of sets |
| EnvoyFilters.GenerateEnvoyConfigs | controllers/envoy_filters.go:18-103 | the artefacts for all subsets and the base set agree, or all are empty when the service cannot be looked up |
| EnvoyFilters.AllSetsMeaning | controllers/envoy_filters.go:29-36 | the sets are the subsets and the base set, which adds no labels |
| Agreement.SetAgreement | controllers/envoy_filters.go:49-102 | filters exist for exactly the subset names and the base set; a filter is there iff the set has a status iff some limit of the spec takes effect, and the status shows those that do |
| Agreement.SetContributes | controllers/envoy_filters.go:97-98 | what a set adds to the list for the rate-limit service: its global limits in effect, in order and with their rates, up to the first that cannot be told |
| Agreement.ToldIsAsked | controllers/envoy_global_limit.go:103-126 | every entry told to the rate-limit service is asked for, with the same key and value, by the set's filter if the limit names a route |
| Agreement.AskedIsTold | controllers/envoy_filters.go:93-98 | whatever the filter asks for is the entry of a limit of the set; and when all its global limits can be expressed, the entry of every global limit has been told, collisions of names included |
| Agreement.EvaluatedExpressible | controllers/envoy_global_limit.go:129-148 | a limit that took effect can be expressed iff its interval is one the service knows |
| Agreement.GlobalListIsAsked | controllers/envoy_filters.go:93-98 | every entry of the list for the rate-limit service tells of a global limit of the spec in effect, with its rate, of a set with a filter, and that filter asks for it if the limit names a route |
| Agreement.FilterIsTold | controllers/envoy_filters.go:93-98 | conversely, for a set whose global limits in effect have legal intervals, the filter asks for entries of its limits in effect only, and each global one is in the list with its rate |
| Duplicates.ToldOnceExactly | controllers/envoy_filters.go:97-98 | with distinct names, no entry is in the list twice iff no limit is told of twice, in one set or in two |
| Duplicates.SharedLimitToldTwice | controllers/envoy_filters.go:97-98 | a global limit that two sets share is in the list twice |
| Duplicates.ListTellsOnceExactly | controllers/process.go:334-341 | what all services have in the shared list occurs once iff what each of them has does |
| Duplicates.TablesOnceExactly | controllers/envoy_local_limit.go:282-308 | no table holds an entry twice iff no limit with a route occurs twice or names a route twice |
| Duplicates.FilterTablesOnceExactly | controllers/envoy_local_limit.go:205-227 | the same for the tables of a generated filter |
| Duplicates.PlacesCount | controllers/envoy_local_limit.go:187-203 | how often a (limit, route) pair occurs |
| Duplicates.RoutesOnceExactly | controllers/envoy_local_limit.go:47-62 | a target names no route twice iff none of its accepted route strings is repeated |
| Agreement.RoutedLimitIsAsked | controllers/envoy_filters.go:126-133 | a limit with a route and without a custom key is asked for |
| Agreement.AskedLimit | controllers/envoy_filters.go:126-133 | nothing is asked for that is not the entry of a limit of the set |
| Agreement.EvaluatedLimit | controllers/envoy_filters.go:66-78 | evaluation keeps matchers, routes, interval and strategy, and the bucket holds the evaluated quota modulo 2^32 |
| Agreement.SpecPreservesMeaning | controllers/envoy_filters.go:49-102 | from spec to request, for both ways of merging tables: a set's filter makes a request meet the spec's limits that take effect, cover its route and match, each with its evaluated quota per its interval |
| Workload.WorkloadsOfSet | controllers/envoy_filters.go:89-92 | of the workloads of a service the base filter selects all, and a subset's filter exactly those with its labels |
| Workload.SelectsSet | controllers/envoy_filters.go:89-92 | a generated filter selects exactly the workloads with the set's labels and those of the service that the set leaves alone |
| Workload.JoinedMeaning | controllers/envoy_filters.go:105-153 | several filters on one workload preserve meaning together, for both ways of merging tables |
| Workload.JoinedTable | controllers/envoy_local_limit.go:205-227 | the table that several filters leave when tables replace: everything if one filter has limits on the route, fewer limits than there are otherwise |
| Workload.ApartExactly | controllers/envoy_local_limit.go:205-227 | it is right on a route iff at most one of the filters has local limits there |
| Workload.AnyPortInTwoSets | controllers/envoy_local_limit.go:69-85 | a limit for all ports in each of two sets is a case in which it is not |
| Workload.MetMeaning | controllers/envoy_filters.go:105-153 | filters that select a workload make a request meet what they were generated from, whatever that was |
| Workload.WorkloadMeaning | controllers/envoy_filters.go:49-102 | from spec to workload: under all generated filters that select it, in any order, a request meets the limits of every set whose labels the workload carries, evaluated, covering and matching |
| RlsConfigMap.ComputeUpdate | controllers/process.go:323-344 | the decision about the data read: give up, skip, or write the list with the service's entries replaced |
| RlsConfigMap.ApplyList | controllers/process.go:334-344 | whatever it decides on readable data, the list afterwards is the others' entries in order followed by the new ones |
| RlsConfigMap.WrittenMeaning | controllers/process.go:355-375 | what is written is one document under one name in the rate-limit service's domain, and differs from what was read |
| RlsConfigMap.UnreadableIsLeft | controllers/process.go:311-332 | a ConfigMap that is missing, lacks the document or cannot be read is left as it is |
| RlsConfigMap.ConfigMapStore.Get | controllers/process.go:311-321 | data and version at the time of the read |
| RlsConfigMap.ConfigMapStore.Update | controllers/process.go:346-347 | an update is carried out iff the version read is the current one, and then raises it |
| RlsConfigMap.ConfigMapStore.RefreshConfigMap | controllers/process.go:308-353 | an uninterrupted call has the effect of one refresh, or none when the API server refuses; equal data is not written |
| RlsConfigMap.StepKeepsInv | controllers/process.go:308-353 | every step of any interleaving keeps the invariant that each version written is its author's refresh of the version before |
| RlsConfigMap.RunKeepsInv | controllers/process.go:308-353 | the invariant holds in every run |
| Serial.Serialisable | controllers/process.go:308-353 | in every interleaving of any number of calls, the ConfigMap is what the calls that did not fail give one after another, each exactly once; rejected ones contribute nothing |
| Serial.SerialReplay | controllers/process.go:343-347 | the same for every earlier version |
| Serial.SerialCount | controllers/process.go:343-352 | a call takes effect at the version it wrote or at the one it read and left alone, once |
| Serial.CommitOrder | controllers/process.go:346-347 | the serial order is the commit order, and each commit is the call's refresh of the version before it: no update is lost |
| RlsContents.ServiceContents | controllers/process.go:334-341 | over any sequence of refreshes of services that keep apart, a service's part of the list is its latest list |
| RlsContents.ListContents | controllers/process.go:334-341 | the whole list: foreign entries in their old order, then the latest entries of every service |
| RlsContents.KeepsAllExactly | controllers/process.go:334-341 | services keep their entries in all runs iff no two overlap in name and namespace |
| RlsContents.OverlapLoses | controllers/process.go:334-341 | two that overlap, and the run in which entries are lost |
| RlsContents.InterleavedContents | controllers/process.go:308-353 | the whole list after any interleaving of calls |
| RlsContents.InterleavedService | controllers/process.go:308-353 | a service's part after any interleaving: what its last call in the serial order wanted |
| Lifecycle.WholeRun | controllers/process.go:123-130 | over creations, deletions, reconciliations and refreshes, a service has in the list what it wanted last |
| Lifecycle.LiveEntriesStay | controllers/process.go:334-341 | as long as a limiter exists, what its latest refresh put into the list stays there |
| Lifecycle.DeletionRemoves | controllers/smartlimiter_controller.go:86-100 | a reconciled deletion leaves no entry of the service |
| Lifecycle.DeletedStaysGone | controllers/process.go:123-130 | and none returns before the limiter is created again |
| Deletion.RunOrderly | controllers/process.go:308-353 | in every run of limiters and interleaved calls the history keeps its invariant and calls stay those of the services |
| Deletion.OvertakenRefreshSurvivesDeletion | controllers/process.go:123-130 | the run in which a refresh that saw the limiter commits after the deletion was reconciled: the limiter is gone and its entry is in the list |
| Deletion.ThreatStrikes | controllers/process.go:323-347 | a call with entries that has yet to read the list, or has read the current version, can put them there |
| Deletion.StaysFreeExactly | controllers/smartlimiter_controller.go:86-100 | entries stay away until the limiter is created again iff there is no such call |
| Deletion.WrittenDeletionExactly | controllers/smartlimiter_controller.go:86-100 | a deletion that writes keeps them away iff at that moment no refresh of the service has yet to read the list |
| FilterStore.FilterNamesInjective | controllers/process.go:165-181 | over all limiters with dot-free names and namespaces and all subset names, dots allowed, no two filters share a name |
| FilterStore.SetNamesInjective | controllers/process.go:165-181 | within one limiter that holds unconditionally |
| FilterStore.FilterKeyMeaning | controllers/process.go:166-181 | filters are in the service's namespace under the documented names |
| FilterStore.ApiServer.Write | controllers/process.go:258-297 | a create, update or delete takes effect unless refused, and may take effect although it reports an error |
| FilterStore.ApiServer.RefreshEnvoyFilter | controllers/process.go:236-305 | create, update, delete or skip: the filter ends as desired or as it was, all others unchanged, with at most one write and none when nothing is to do |
| FilterStore.ApiServer.RefreshAll | controllers/process.go:165-193 | in whatever order the map is visited, the store ends as one function of the old store, failures of single filters included; a settled store is not written |
| FilterStore.DrivenExactly | controllers/process.go:254-304 | without faults a filter ends as desired iff it was absent, of the limiter's revision, or as desired already |
| FilterStore.Converges | controllers/process.go:165-193 | one pass without faults settles every named filter, leaves all others alone, and a second pass changes nothing |
| FilterStore.StoredAsGenerated | controllers/process.go:165-193 | what a pass that succeeded leaves for its sets in the API server is what was generated |
| FilterStore.OtherSetsUntouched | controllers/process.go:209-211 | a pass leaves the filters of the service's other sets as they are |
| FilterStore.RevisionKept | controllers/process.go:268-272 | a pass over filters of its own revision leaves filters of its own revision |
| FilterStore.SettledStays | controllers/process.go:282-284 | a pass over a settled store changes nothing, whatever fails |
| FilterStore.OldOrDriven | controllers/process.go:189-192 | with faults every filter is at its old or its desired state |
| FilterStore.OtherRevisionUntouched | controllers/process.go:268-272 | a filter of another revision is left as it is, whatever is desired |
| FilterStore.FaultyStays | controllers/process.go:237-252 | a filter whose owner cannot be set, that cannot be read or whose write is refused stays as it was |
| FilterStore.CarriedOut | controllers/process.go:255-302 | otherwise it is gone, or has the desired spec and the limiter's revision, even if the answer is lost |
| FilterStore.ServicesIndependent | controllers/process.go:165-193 | in any run over many services a service's filters are those its own passes alone would leave |
| FilterStore.UnmentionedSetKeepsFilter | controllers/process.go:209-211 | the filter of a subset that is no longer mentioned is never cleaned up |
| Regeneration.OneWayExactly | controllers/envoy_local_limit.go:108-133 | limits have one compilation only iff they, and the local ones among them, lie on one route key each |
| Regeneration.SecondRefreshExactly | controllers/process.go:274-293 | after a pass that succeeded, a further refresh from the same spec is certain to write nothing iff the limits of every set lie on one route key |
| Refresh.RefreshLimiter | controllers/process.go:145-207 | an invalid spec or a missing service writes nothing; else filters, shared list and status are written, and only the last can fail the refresh |
| Refresh.GeneratedNames | controllers/envoy_global_limit.go:111-112 | the entries generated for a service carry its own name |
| Refresh.RefreshEstablishes | controllers/process.go:145-207 | after a refresh without trouble a request meets, under a set's filter that is stored, the limits of the spec, for both ways of merging tables, and the service's part of the shared list is the entries of all its sets |
| Refresh.RefreshedWorkload | controllers/process.go:145-211 | after it, a request to a workload meets, under all stored filters of the service that select the workload, what the spec asks for on it iff it meets no limit behind a filter that was left behind |
| Refresh.LeftBehind | controllers/process.go:209-211 | what an earlier refresh generated for a set that the next does not know is still stored |
| Refresh.RemovedSubsetStillLimits | controllers/process.go:209-211 | the run in which the filter of a removed subset makes a request meet a limit that the spec does not ask for |
| Leftover.AskedSplit | controllers/process.go:165-193 | what all stored filters ask for is what the spec asks for and what the filters left behind ask for |
| Leftover.SplitExactly | controllers/process.go:209-211 | the exact condition under which filters left behind do not show |
| Leftover.RunHasOrigins | controllers/process.go:161-193 | in every run of refreshes each stored filter was generated from some limits |
| Metrics.RefreshOnMetrics | controllers/process.go:104-142 | metrics are remembered first; a limiter that is found is then refreshed with its templates evaluated over all that is remembered of its service |
| Metrics.MaterialIsOverlay | controllers/process.go:227-234 | what templates are evaluated over is the overlay of all maps since the last reconciled deletion, the new one on top |
| Metrics.LateMetricsStay | controllers/process.go:104-135 | maps that arrive after a reconciled deletion are remembered, and nothing from before it |
| Metrics.MetricsReachRequests | controllers/process.go:58-207 | from a run of metrics to the limits that a request meets |
| Reconciler.SmartLimiterReconciler.constructor | controllers/smartlimiter_controller.go:129-137 | nothing is known at the start |
| Reconciler.SmartLimiterReconciler.Reconcile | controllers/smartlimiter_controller.go:72-121 | what is remembered after a limiter was found, was gone, or could not be read |
| Reconciler.SmartLimiterReconciler.Refresh | controllers/process.go:104-142 | new metrics are laid over the known ones before the limiter is read, also for one that is gone |
| Reconciler.SmartLimiterReconciler.ConsumeMetric | controllers/process.go:58-102 | every sample with readable meta information is collected and passed on, in the order visited |
| Reconciler.ConsumedExactly | controllers/process.go:58-102 | after a batch a service's metrics are those known before, overlaid by those collected from the samples of its name and namespace |
| Reconciler.CollectResults | controllers/process.go:71-86 | the loop over results: a group replaces what was collected, a single value is added only if it is the only one |
| Reconciler.AddPodCounts | controllers/process.go:88-94 | non-zero pod counts are laid on top, in any order of the map |
| Reconciler.LayOver | controllers/process.go:115-117 | new values replace old ones of the same name, in any order of the map |
| Reconciler.LastGroupWins | controllers/process.go:71-86 | with groups, what is collected is the last group overlaid by the single values after it |
| Reconciler.NoGroupKeepsSingles | controllers/process.go:71-86 | without groups, the overlay of all single values |
| Reconciler.SingleMeaning | controllers/process.go:75-82 | one value counts under the metric's name; none or several do not count |
| Reconciler.CollectedMeaning | controllers/process.go:88-94 | pods are counted on top of the results, in decimal; a subset without pods leaves what the results say |
| Reconciler.LastLayerDecides | controllers/process.go:115-117 | in an overlay the last map that has a name decides on its value |
| Reconciler.MetricsAreOverlay | controllers/process.go:104-121 | in every run a service's metrics are the overlay of all maps since its last reconciled deletion, and known iff there is one |
| Reconciler.InterestOverRuns | controllers/smartlimiter_controller.go:86-119 | without clashes of specs, a non-empty remembered policy belongs to a limiter of interest, and the limiters of interest are exactly those watched |
| Reconciler.InterestIsWatched | controllers/smartlimiter_controller.go:86-119 | in every run, whatever the specs, what is of interest has been reconciled in scope and not as deleted since |
| Reconciler.InterestExactly | controllers/smartlimiter_controller.go:108-118 | watched limiters are of interest in all runs iff no two limiters ever carry equal specs and none the empty one |
| Reconciler.KeyRoundTrip | controllers/producer.go:56-59 | the ticker finds namespace and name behind a key |
| Producer.QuerySubsetPods | controllers/producer.go:154-191 | the nested loops build exactly the index of all (subset, pod) filings |
| Producer.IndexHolds | controllers/producer.go:177-191 | the index has a key iff something was filed under it, and then the names in order |
| Producer.PodsOfSubsets | controllers/producer.go:154-191 | with distinct subset names each subset has the in-order list of its pods and the base set all pods |
| Producer.CountsSumToPairs | controllers/producer.go:162-168 | the subset counts sum to the number of pairs of a pod and a subset that selects it |
| Producer.GenerateMeta | controllers/producer.go:222-240 | one count for each key that has pods, and no other |
| Producer.PodKeyInjective | controllers/producer.go:228-231 | the names of counts are distinct for distinct subsets |
| Producer.CountsOfSubsets | controllers/producer.go:154-240 | end to end: a subset is counted with the pods it selects, never with more than the base set, and not at all without pods |
| Producer.PodsWithLabels | controllers/producer.go:162-173 | with the plain test on labels, a subset has the pods that carry its labels, and the base set all |
| WorkQueue.StepKeepsInv | controllers/multicluster/controller.go:109-130 | every step keeps the queue consistent, among it that no item is put back more than three times |
| WorkQueue.FinishLowersMeasure | controllers/multicluster/controller.go:117-127 | success, retry, giving up, and a retry that coincides with a pending one all lower the measure |
| WorkQueue.InternalStepsKeepMeasure | controllers/multicluster/controller.go:110-115 | taking an item and the end of a delay do not raise it, and move the queue forward |
| WorkQueue.MeasureBound | controllers/multicluster/controller.go:109-130 | the measure is never below the number of pending turns |
| WorkQueue.BoundedProcessing | controllers/multicluster/controller.go:104-130 | in every run the number of processings is bounded by the measure at the start and four per add from outside |
| WorkQueue.IdleIsDrained | controllers/multicluster/controller.go:109-130 | when the queue can do nothing more, nothing is pending and no retries are remembered |
| WorkQueue.RetriesBounded | controllers/multicluster/controller.go:121-127 | in every run an item is put back at most three times between two times it is forgotten |
| WorkQueue.FourAttempts | controllers/multicluster/controller.go:117-127 | an item that keeps failing gets exactly four attempts and is then forgotten |
| WorkQueue.SuccessForgets | controllers/multicluster/controller.go:118-120 | one that succeeds is forgotten at once |
| Multicluster.Controller.constructor | controllers/multicluster/controller.go:40-47 | an empty registry and an empty queue |
| Multicluster.Controller.AddMemberCluster | controllers/multicluster/controller.go:147-191 | a secret registers exactly the properly configured clusters that have no owner, and every callback hears once of each usable one |
| Multicluster.Controller.AddOne | controllers/multicluster/controller.go:150-188 | the same for one cluster of the secret |
| Multicluster.Controller.DeleteMemberCluster | controllers/multicluster/controller.go:193-204 | exactly the clusters of the secret leave, and every callback hears once of each |
| Multicluster.Controller.ProcessItem | controllers/multicluster/controller.go:132-145 | a failed look-up changes nothing; else the secret is added or deleted |
| Multicluster.Controller.ProcessNextItem | controllers/multicluster/controller.go:109-130 | one turn of the queue with the effect of its item |
| Multicluster.Controller.RunWorker | controllers/multicluster/controller.go:104-107 | left alone the worker ends with a drained queue, however look-ups fail and delays end, and clusters of existing secrets keep their owner |
| Multicluster.OwnerIsStable | controllers/multicluster/controller.go:147-204 | an owner never changes while the cluster is present; the cluster leaves iff that owner is deleted, and every callback is told once |
| Multicluster.EntryIsTold | controllers/multicluster/controller.go:147-191 | a cluster without an owner comes in iff a secret configures it properly; that secret owns it, and every callback hears of it once iff a client can be built |
| Multicluster.NoOtherEntry | controllers/multicluster/controller.go:147-204 | no other change registers a cluster or tells anyone of it |
| Multicluster.Books | controllers/multicluster/controller.go:147-204 | over every run, a cluster is registered as often as it came in, registrations less removals are 1 if it is present and else 0, every callback heard of it as often as it came in with a usable configuration, and of every removal |
| Secrets.HappenConsistent | controllers/multicluster/controller.go:68-84 | every step of index, notifications, queue and worker keeps a look-up that is out of date followed by another processing |
| Secrets.HappenKeepsOwners | controllers/multicluster/controller.go:68-84 | every step keeps every owner existing, outstanding or given up |
| Secrets.OwnersOverRuns | controllers/multicluster/controller.go:109-145 | so in every run, once all is drained and nothing was given up, every cluster belongs to a secret that exists |
| Secrets.WorkMeaning | controllers/multicluster/controller.go:132-145 | a cluster leaves only after its owner was found gone, enters only after a secret with it was found, and a failed look-up changes nothing |
| Secrets.ContestedLeftOut | controllers/multicluster/controller.go:147-151 | two secrets hold a cluster and its owner is deleted: the cluster stays unregistered |
| Secrets.ChangeLeftOut | controllers/multicluster/controller.go:69-84 | a secret that comes to configure a cluster by a change is not processed, and the cluster stays unregistered |
| Secrets.RegistersAllExactly | controllers/multicluster/controller.go:147-204 | every configured cluster is registered in all runs, once all is drained, iff no two secrets ever configure one cluster and no secret changes which it configures |

## Left out

- Meaning.MergeIsCovering: the order of actions and limits within a route is not stated, because the code visits a Go map; results on routes are equalities of multisets.
- Preservation.CompilationPreservesMeaning: conditions on names and directions are hypotheses; they are caller-visible, and `CompilationByEntry` and `OneDirectionExactly` say what holds without them.
- Lifecycle.DeletedStaysGone: refreshes are uninterrupted steps here, because the statement is false for interleaved ones; `Deletion.StaysFreeExactly` has the condition for those.
- Deletion.StaysFreeExactly: a refresh reads the limiter when it starts; a read of it from a cache that lags is not modelled, while reads of the ConfigMap may be stale.
- Refresh.RefreshedWorkload: filters of other services that select the same pods, and filters that other clients wrote, are not part of it.
- Workload.WorkloadMeaning: names are distinct over all sets of the workload, and each set has one direction per key; the hypotheses are those of one filter.
- Reconciler.SmartLimiterReconciler.Reconcile: the clean-up of the ConfigMap is reported as an out-parameter, to be carried out with an empty list only while global rate limiting is enabled; locks are left out, each call being one step.
- Reconciler.SmartLimiterReconciler.Refresh: maps are values, so writes through a map that a caller still holds are not modelled, nor is the panic of writing to a nil map that a group result without values can leave.
- Multicluster.Controller.RunWorker: looking a secret up and changing the registry is one step in the method; `Secrets` separates them, and the index from its notifications.
- RlsConfigMap.StepKeepsInv: an update that is carried out although its answer is lost counts as carried out; the object's labels and a deletion of the ConfigMap while it is refreshed appear only as writes by others.
- Conversions to and from YAML, JSON and protobuf structs, which are library code: data is typed. The failure of such a conversion (a filter dropped or a list of patches left out) is not modelled.
- Template evaluation, regular expressions, the label-subset test and the checksum: parameters of the functions and methods that use them.
- Writes by others between the read and the write of one EnvoyFilter: they appear as a refused write.
- Nil pointers inside a spec: a fill interval is always present, and descriptors and set entries are never nil.
- The contents of the metric status, the `subscribe` callback, which is a refresh under another trigger, and the default bucket and constant Envoy messages around each patch.
- The query strings sent to Prometheus and which handlers are kept (`controllers/producer.go:193-279`).
- Wiring of clients, informers, tickers and the manager.
- Fairness: that a controller is scheduled at all, and delays as durations.
