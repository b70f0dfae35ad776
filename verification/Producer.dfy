/** Counting the pods of a service by subset. */
module Producer {
  import opened Seqs
  import opened Grouping
  import opened Limiter

  type Labels = map<string, string>

  datatype Pod = Pod(name: string, labels: Labels)

  /** Whether labels contain those of a selector. */
  type Contains = (Labels, Labels) -> bool

  /** A pod's name filed under a key. */
  type Filed = (string, string)

  function KeyOf(f: Filed): string {
    f.0
  }

  function NameOf(f: Filed): string {
    f.1
  }

  /** The names filed under a key, in order. */
  function Under(filed: seq<Filed>, key: string): seq<string> {
    Map(NameOf, GroupOf(KeyOf, filed, key))
  }

  function Index(filed: seq<Filed>): map<string, seq<string>> {
    GroupBy(KeyOf, NameOf, filed)
  }

  /** The index holds exactly what was filed: no key without names, and under each key the names in order. */
  lemma IndexHolds(filed: seq<Filed>, key: string)
    ensures key in Index(filed) <==> Under(filed, key) != []
    ensures key in Index(filed) ==> Index(filed)[key] == Under(filed, key)
  {
    GroupByIsFilter(KeyOf, NameOf, filed);
    GroupNotEmpty(KeyOf, filed, key);
  }

  predicate Selects(contains: Contains, sb: Subset, pod: Pod) {
    contains(pod.labels, sb.labels)
  }

  function SelectedBy(contains: Contains, sb: Subset): Pod -> bool {
    (pod: Pod) => Selects(contains, sb, pod)
  }

  function Selecting(contains: Contains, pod: Pod): Subset -> bool {
    (sb: Subset) => Selects(contains, sb, pod)
  }

  function FileAs(pod: Pod): Subset -> Filed {
    (sb: Subset) => (sb.name, pod.name)
  }

  /** A pod under every subset that selects it. */
  function FiledUnder(contains: Contains, pod: Pod, subsets: seq<Subset>): seq<Filed> {
    Map(FileAs(pod), Filter(Selecting(contains, pod), subsets))
  }

  lemma FiledFirst(contains: Contains, pod: Pod, subsets: seq<Subset>, filed: seq<Filed>)
    ensures filed + FiledUnder(contains, pod, subsets[..0]) == filed
  {
  }

  lemma FiledSnoc(contains: Contains, pod: Pod, subsets: seq<Subset>, i: nat, filed: seq<Filed>)
    requires i < |subsets|
    ensures filed + FiledUnder(contains, pod, subsets[..i + 1]) ==
      filed + FiledUnder(contains, pod, subsets[..i])
        + if Selects(contains, subsets[i], pod) then [(subsets[i].name, pod.name)] else []
  {
    var selected := Filter(Selecting(contains, pod), subsets[..i]);
    FilterSnoc(Selecting(contains, pod), subsets, i);
    if Selects(contains, subsets[i], pod) {
      MapAppend(FileAs(pod), selected, [subsets[i]]);
      assert Map(FileAs(pod), [subsets[i]]) == [(subsets[i].name, pod.name)];
    } else {
      assert selected + [] == selected;
    }
  }

  function BySubset(contains: Contains, subsets: seq<Subset>): Pod -> seq<Filed> {
    (pod: Pod) => FiledUnder(contains, pod, subsets)
  }

  function InBase(pod: Pod): Filed {
    (BASE_SET, pod.name)
  }

  /** All filings: by subset, pod after pod, and then every pod under the base set. */
  function AllFiled(contains: Contains, pods: seq<Pod>, subsets: seq<Subset>): seq<Filed> {
    FlatMap(BySubset(contains, subsets), pods) + Map(InBase, pods)
  }

  /** Files a pod under the subsets that select it. */
  method FilePod(contains: Contains, index: map<string, seq<string>>, ghost filed: seq<Filed>, pod: Pod,
      subsets: seq<Subset>)
    returns (more: map<string, seq<string>>)
    requires index == Index(filed)
    ensures more == Index(filed + FiledUnder(contains, pod, subsets))
  {
    hide Index, FiledUnder, Insert;
    more := index;
    ghost var done := filed;
    FiledFirst(contains, pod, subsets, filed);
    for i := 0 to |subsets|
      invariant more == Index(done) && done == filed + FiledUnder(contains, pod, subsets[..i])
    {
      FiledSnoc(contains, pod, subsets, i, filed);
      if contains(pod.labels, subsets[i].labels) {
        IndexSnoc(done, subsets[i].name, pod.name);
        more := InsertOne(more, subsets[i].name, pod.name);
        done := done + [(subsets[i].name, pod.name)];
      }
    }
    assert subsets[..|subsets|] == subsets;
  }

  lemma IndexSnoc(filed: seq<Filed>, key: string, name: string)
    ensures Index(filed + [(key, name)]) == Insert(Index(filed), key, name)
  {
    GroupBySnoc(KeyOf, NameOf, filed, (key, name));
  }

  /** Without subsets for the host only the base set is filled. */
  method QuerySubsetPods(contains: Contains, pods: seq<Pod>, subsets: seq<Subset>)
    returns (subsetsPods: map<string, seq<string>>)
    ensures subsetsPods == Index(AllFiled(contains, pods, subsets))
  {
    hide Index, Insert, FiledUnder;
    subsetsPods := map[];
    var f := BySubset(contains, subsets);
    EmptyIndex();
    for i := 0 to |pods|
      invariant subsetsPods == Index(FlatMap(f, pods[..i]))
    {
      FlatMapSnoc(f, pods, i);
      subsetsPods := FilePod(contains, subsetsPods, FlatMap(f, pods[..i]), pods[i], subsets);
    }
    assert pods[..|pods|] == pods;
    ghost var bySubset := FlatMap(f, pods);
    assert bySubset + Map(InBase, pods[..0]) == bySubset;
    for i := 0 to |pods|
      invariant subsetsPods == Index(bySubset + Map(InBase, pods[..i]))
    {
      assert pods[..i + 1] == pods[..i] + [pods[i]];
      assert bySubset + Map(InBase, pods[..i + 1]) == bySubset + Map(InBase, pods[..i]) + [(BASE_SET, pods[i].name)];
      IndexSnoc(bySubset + Map(InBase, pods[..i]), BASE_SET, pods[i].name);
      subsetsPods := InsertOne(subsetsPods, BASE_SET, pods[i].name);
    }
  }

  lemma EmptyIndex()
    ensures Index([]) == map[]
  {
  }

  ghost predicate DistinctSubsets(subsets: seq<Subset>) {
    && (forall i, j :: 0 <= i < j < |subsets| ==> subsets[i].name != subsets[j].name)
    && forall i :: 0 <= i < |subsets| ==> subsets[i].name != BASE_SET
  }

  function PodName(pod: Pod): string {
    pod.name
  }

  lemma UnderOneSubset(contains: Contains, pod: Pod, subsets: seq<Subset>, k: nat)
    requires DistinctSubsets(subsets) && k < |subsets|
    ensures Filter(HasKey(KeyOf, subsets[k].name), FiledUnder(contains, pod, subsets)) ==
      if Selects(contains, subsets[k], pod) then [(subsets[k].name, pod.name)] else []
  {
    var key := subsets[k].name;
    var same := (sb: Subset) => sb.name == key;
    FilterMap(HasKey(KeyOf, key), same, FileAs(pod), Filter(Selecting(contains, pod), subsets));
    var both := (sb: Subset) => Selecting(contains, pod)(sb) && sb.name == key;
    FilterTwice(same, Selecting(contains, pod), both, subsets);
    OneOf(both, subsets, k);
    assert both(subsets[k]) == Selects(contains, subsets[k], pod);
  }

  lemma {:induction false} OneOf<T>(p: T -> bool, s: seq<T>, k: nat)
    requires k < |s| && forall i :: 0 <= i < |s| && i != k ==> !p(s[i])
    ensures Filter(p, s) == if p(s[k]) then [s[k]] else []
  {
    if k == 0 {
      FilterNone(p, s[1..]);
    } else {
      OneOf(p, s[1..], k - 1);
    }
  }

  lemma {:induction false} UnderSubset(contains: Contains, pods: seq<Pod>, subsets: seq<Subset>, k: nat)
    requires DistinctSubsets(subsets) && k < |subsets|
    ensures Under(FlatMap(BySubset(contains, subsets), pods), subsets[k].name) ==
      Map(PodName, Filter(SelectedBy(contains, subsets[k]), pods))
  {
    if pods != [] {
      var key, f := subsets[k].name, BySubset(contains, subsets);
      UnderSubset(contains, pods[1..], subsets, k);
      UnderOneSubset(contains, pods[0], subsets, k);
      FilterAppend(HasKey(KeyOf, key), f(pods[0]), FlatMap(f, pods[1..]));
      MapAppend(NameOf, Filter(HasKey(KeyOf, key), f(pods[0])), Filter(HasKey(KeyOf, key), FlatMap(f, pods[1..])));
    }
  }

  lemma FiledBySubset(contains: Contains, pod: Pod, subsets: seq<Subset>, x: Filed)
    requires x in FiledUnder(contains, pod, subsets)
    ensures exists i :: 0 <= i < |subsets| && subsets[i].name == x.0
  {
    hide Filter;
    var selected := Filter(Selecting(contains, pod), subsets);
    InFilter(Selecting(contains, pod), subsets);
    var j :| 0 <= j < |selected| && FiledUnder(contains, pod, subsets)[j] == x;
    assert selected[j] in selected;
  }

  lemma FiledKeys(contains: Contains, pods: seq<Pod>, subsets: seq<Subset>, key: string)
    requires forall i :: 0 <= i < |subsets| ==> subsets[i].name != key
    ensures Filter(HasKey(KeyOf, key), FlatMap(BySubset(contains, subsets), pods)) == []
  {
    hide FiledUnder, Filter, FlatMap;
    var f := BySubset(contains, subsets);
    forall x: Filed | x in FlatMap(f, pods)
      ensures x.0 != key
    {
      InFlatMap(f, pods, x);
      var i :| 0 <= i < |pods| && x in f(pods[i]);
      FiledBySubset(contains, pods[i], subsets, x);
    }
    FilterNone(HasKey(KeyOf, key), FlatMap(f, pods));
  }

  /** Every subset has its pods in order, the base set has all pods, and nothing else is counted. */
  lemma PodsOfSubsets(contains: Contains, pods: seq<Pod>, subsets: seq<Subset>, k: nat)
    requires DistinctSubsets(subsets)
    ensures k < |subsets| ==>
      Under(AllFiled(contains, pods, subsets), subsets[k].name) ==
        Map(PodName, Filter(SelectedBy(contains, subsets[k]), pods))
    ensures Under(AllFiled(contains, pods, subsets), BASE_SET) == Map(PodName, pods)
  {
    var bySubset, base := FlatMap(BySubset(contains, subsets), pods), Map(InBase, pods);
    if k < |subsets| {
      UnderSubset(contains, pods, subsets, k);
      FilterAppend(HasKey(KeyOf, subsets[k].name), bySubset, base);
      FilterNone(HasKey(KeyOf, subsets[k].name), base);
      assert Filter(HasKey(KeyOf, subsets[k].name), bySubset) + [] == Filter(HasKey(KeyOf, subsets[k].name), bySubset);
    }
    FiledKeys(contains, pods, subsets, BASE_SET);
    FilterAppend(HasKey(KeyOf, BASE_SET), bySubset, base);
    FilterAll(HasKey(KeyOf, BASE_SET), base);
  }

  // ----- Counts -----

  /** The number of pairs of a pod and a subset that selects it. */
  function Pairs(contains: Contains, pods: seq<Pod>, subsets: seq<Subset>): nat {
    if pods == [] then 0 else |Filter(Selecting(contains, pods[0]), subsets)| + Pairs(contains, pods[1..], subsets)
  }

  function SubsetCounts(contains: Contains, pods: seq<Pod>, subsets: seq<Subset>): nat {
    if subsets == [] then 0
    else |Filter(SelectedBy(contains, subsets[0]), pods)| + SubsetCounts(contains, pods, subsets[1..])
  }

  lemma {:induction false} PairsByFirstSubset(contains: Contains, pods: seq<Pod>, subsets: seq<Subset>)
    requires subsets != []
    ensures Pairs(contains, pods, subsets) ==
      |Filter(SelectedBy(contains, subsets[0]), pods)| + Pairs(contains, pods, subsets[1..])
  {
    if pods != [] {
      PairsByFirstSubset(contains, pods[1..], subsets);
    }
  }

  lemma {:induction false} NoPairs(contains: Contains, pods: seq<Pod>)
    ensures Pairs(contains, pods, []) == 0
  {
    if pods != [] {
      NoPairs(contains, pods[1..]);
    }
  }

  /** Summing the counts of the subsets counts the pairs of a pod and a subset that selects it. */
  lemma {:induction false} CountsSumToPairs(contains: Contains, pods: seq<Pod>, subsets: seq<Subset>)
    ensures SubsetCounts(contains, pods, subsets) == Pairs(contains, pods, subsets)
  {
    if subsets == [] {
      NoPairs(contains, pods);
    } else {
      CountsSumToPairs(contains, pods, subsets[1..]);
      PairsByFirstSubset(contains, pods, subsets);
    }
  }

  /** The counts in the static information of a service: one for every key with pods. */
  ghost predicate IsPodCount(nPod: map<string, int>, index: map<string, seq<string>>) {
    && (forall key :: key in index && index[key] != [] ==> key + ".pod" in nPod && nPod[key + ".pod"] == |index[key]|)
    && forall name :: name in nPod ==> exists key :: key in index && index[key] != [] && name == key + ".pod"
  }

  lemma PodKeyInjective(key: string, other: string)
    requires key + ".pod" == other + ".pod"
    ensures key == other
  {
    assert |key| == |other|;
    assert (key + ".pod")[..|key|] == key && (other + ".pod")[..|other|] == other;
  }

  method GenerateMeta(subsetsPods: map<string, seq<string>>) returns (nPod: map<string, int>)
    ensures IsPodCount(nPod, subsetsPods)
  {
    nPod := map[];
    var remaining := subsetsPods.Keys;
    ghost var done: map<string, seq<string>> := map[];
    while remaining != {}
      invariant remaining <= subsetsPods.Keys
      invariant done == map key | key in subsetsPods && key !in remaining :: subsetsPods[key]
      invariant IsPodCount(nPod, done)
    {
      var k :| k in remaining;
      remaining := remaining - {k};
      CountSnoc(nPod, done, k, subsetsPods[k]);
      done := done[k := subsetsPods[k]];
      if |subsetsPods[k]| > 0 {
        nPod := nPod[k + ".pod" := |subsetsPods[k]|];
      }
    }
    assert done == subsetsPods;
  }

  lemma CountSnoc(nPod: map<string, int>, done: map<string, seq<string>>, k: string, names: seq<string>)
    requires IsPodCount(nPod, done) && k !in done
    ensures IsPodCount(if names == [] then nPod else nPod[k + ".pod" := |names|], done[k := names])
  {
    var more := done[k := names];
    var counts := if names == [] then nPod else nPod[k + ".pod" := |names|];
    forall key | key in more && more[key] != []
      ensures key + ".pod" in counts && counts[key + ".pod"] == |more[key]|
    {
      if key != k && key + ".pod" == k + ".pod" {
        PodKeyInjective(key, k);
      }
    }
    forall name | name in counts
      ensures exists key :: key in more && more[key] != [] && name == key + ".pod"
    {
      if name in nPod {
        var key :| key in done && done[key] != [] && name == key + ".pod";
        assert key in more && more[key] != [];
      } else {
        assert k in more && more[k] != [];
      }
    }
  }

  /**
   From pods to counts: a subset is counted with the pods it selects, never with more than the base set; without pods
   nothing is counted.
   */
  lemma CountsOfSubsets(contains: Contains, pods: seq<Pod>, subsets: seq<Subset>,
      index: map<string, seq<string>>, nPod: map<string, int>, k: nat)
    requires DistinctSubsets(subsets) && k < |subsets|
    requires index == Index(AllFiled(contains, pods, subsets)) && IsPodCount(nPod, index)
    ensures var selected := |Filter(SelectedBy(contains, subsets[k]), pods)|; var name := subsets[k].name + ".pod";
      && (selected > 0 ==> name in nPod && nPod[name] == selected)
      && (selected == 0 ==> name !in nPod)
      && (pods != [] ==> "_base.pod" in nPod && selected <= nPod["_base.pod"] == |pods|)
  {
    var filed := AllFiled(contains, pods, subsets);
    PodsOfSubsets(contains, pods, subsets, k);
    IndexHolds(filed, subsets[k].name);
    IndexHolds(filed, BASE_SET);
    assert BASE_SET + ".pod" == "_base.pod";
    FilterShorter(SelectedBy(contains, subsets[k]), pods);
    var name := subsets[k].name + ".pod";
    if name in nPod {
      var key :| key in index && index[key] != [] && name == key + ".pod";
      PodKeyInjective(key, subsets[k].name);
    }
  }

  // ----- Labels -----

  /** The labels hold all of the wanted ones. */
  predicate CarriesAll(labels: Labels, wanted: Labels) {
    forall k :: k in wanted ==> k in labels && labels[k] == wanted[k]
  }

  function HasLabels(wanted: Labels): Pod -> bool {
    (pod: Pod) => forall k :: k in wanted ==> k in pod.labels && pod.labels[k] == wanted[k]
  }

  /** With the plain test on labels: a subset has the pods that carry its labels, whatever else they carry. */
  lemma PodsWithLabels(pods: seq<Pod>, subsets: seq<Subset>, k: nat)
    requires DistinctSubsets(subsets) && k < |subsets|
    ensures Under(AllFiled(CarriesAll, pods, subsets), subsets[k].name) ==
      Map(PodName, Filter(HasLabels(subsets[k].labels), pods))
    ensures Under(AllFiled(CarriesAll, pods, subsets), "_base") == Map(PodName, pods)
  {
    PodsOfSubsets(CarriesAll, pods, subsets, k);
    FilterCongruence(SelectedBy(CarriesAll, subsets[k]), HasLabels(subsets[k].labels), pods);
  }
}
