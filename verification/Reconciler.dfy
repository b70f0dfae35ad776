/**
 What the controller remembers between events: limiters of interest, metrics by service, and the policy it saw last.
 */
module Reconciler {
  import opened Seqs
  import opened Text
  import opened Limiter

  type Info = map<string, string>

  const EMPTY_SPEC := SmartLimiterSpec(None, "")

  function KeyOf(loc: Location): string {
    loc.namespace + "/" + loc.name
  }

  /** The answer of the API server to a read of a limiter. */
  datatype Answer = Found(spec: SmartLimiterSpec, inScope: bool) | NotFound | ReadError

  datatype Memory = Memory(interest: set<string>, metricInfo: map<string, Info>, lastUpdatePolicy: SmartLimiterSpec)

  const NOTHING_KNOWN := Memory({}, map[], EMPTY_SPEC)

  /** A limiter that is gone is forgotten; one that differs from the policy seen last becomes of interest. */
  function Reconciled(m: Memory, key: string, answer: Answer): Memory {
    match answer
    case ReadError => m
    case NotFound => Memory(m.interest - {key}, m.metricInfo - {key}, EMPTY_SPEC)
    case Found(spec, inScope) =>
      if !inScope || spec == m.lastUpdatePolicy then m else m.(interest := m.interest + {key}, lastUpdatePolicy := spec)
  }

  /** Later metrics replace earlier ones of the same name. */
  function Refreshed(m: Memory, key: string, args: Info): Memory {
    m.(metricInfo := m.metricInfo[key := if key in m.metricInfo then m.metricInfo[key] + args else args])
  }

  // ----- Metrics -----

  datatype StaticMeta = StaticMeta(name: string, namespace: string, nPod: map<string, int>, isGroup: map<string, bool>)

  datatype Result = Result(name: string, value: Info)

  predicate IsGroup(isGroup: map<string, bool>, r: Result) {
    r.name in isGroup && isGroup[r.name]
  }

  /** A single value counts under the name of its metric, and only if it is the only one. */
  ghost function Single(r: Result): Info {
    if |r.value| == 1 then map[r.name := OnlyValue(r.value)] else map[]
  }

  ghost function OnlyValue(m: Info): string
    requires |m| == 1
  {
    OneKey(m);
    var k :| k in m;
    m[k]
  }

  lemma OneKey(m: Info)
    requires |m| == 1
    ensures exists k :: k in m
    ensures forall k, l :: k in m && l in m ==> k == l
  {
    assert |m.Keys| == 1;
    var k :| k in m.Keys;
    var rest := m.Keys - {k};
    assert |rest| == 0;
    forall a | a in m
      ensures a == k
    {
      assert a !in rest;
    }
  }

  ghost function Taken(isGroup: map<string, bool>, info: Info, r: Result): Info {
    if IsGroup(isGroup, r) then r.value
    else if |r.value| == 1 then info[r.name := OnlyValue(r.value)]
    else info
  }

  lemma TakenSingle(isGroup: map<string, bool>, info: Info, r: Result)
    requires !IsGroup(isGroup, r)
    ensures Taken(isGroup, info, r) == info + Single(r)
  {
    hide OnlyValue;
  }

  /** What the loop over results collects. */
  ghost function AfterResults(isGroup: map<string, bool>, results: seq<Result>): Info {
    if results == [] then map[]
    else Taken(isGroup, AfterResults(isGroup, results[..|results| - 1]), results[|results| - 1])
  }

  /** Subsets without pods are left out. */
  function PodCounts(nPod: map<string, int>): Info {
    map subset | subset in nPod && nPod[subset] != 0 :: FormatInt(nPod[subset])
  }

  ghost function Collected(meta: StaticMeta, results: seq<Result>): Info {
    AfterResults(meta.isGroup, results) + PodCounts(meta.nPod)
  }

  /** Maps laid one over the other, the later on top. */
  function Overlay(maps: seq<Info>): Info {
    if maps == [] then map[] else Overlay(maps[..|maps| - 1]) + maps[|maps| - 1]
  }

  ghost function Singles(results: seq<Result>): seq<Info> {
    Map(Single, results)
  }

  /** A group result wipes out what was collected before it: only the last one and the single values after it remain. */
  lemma {:induction false} LastGroupWins(isGroup: map<string, bool>, results: seq<Result>, g: nat)
    requires g < |results| && IsGroup(isGroup, results[g])
    requires forall i :: g < i < |results| ==> !IsGroup(isGroup, results[i])
    ensures AfterResults(isGroup, results) == results[g].value + Overlay(Singles(results[g + 1..]))
  {
    hide Singles, Single, AfterResults, Taken, Overlay;
    var n := |results| - 1;
    var init, last := results[..n], results[n];
    AfterLast(isGroup, results);
    if g == n {
      NoSingles();
      OverNothing(last.value);
      assert results[g + 1..] == [];
    } else {
      var after := init[g + 1..];
      LastGroupWins(isGroup, init, g);
      TakenSingle(isGroup, AfterResults(isGroup, init), last);
      OverlaySnoc(after, last);
      LayersAssociate(results[g].value, Overlay(Singles(after)), Single(last));
      assert results[g + 1..] == after + [last];
    }
  }

  lemma AfterLast(isGroup: map<string, bool>, results: seq<Result>)
    requires results != []
    ensures var n := |results| - 1;
      && AfterResults(isGroup, results) == Taken(isGroup, AfterResults(isGroup, results[..n]), results[n])
      && (IsGroup(isGroup, results[n]) ==> AfterResults(isGroup, results) == results[n].value)
  {
  }

  lemma OverNothing(m: Info)
    ensures m + map[] == m
  {
  }

  lemma NoSingles()
    ensures Overlay(Singles([])) == map[]
  {
  }

  lemma LayersAssociate(a: Info, b: Info, c: Info)
    ensures (a + b) + c == a + (b + c)
  {
  }

  lemma {:induction false} NoGroupKeepsSingles(isGroup: map<string, bool>, results: seq<Result>)
    requires forall i :: 0 <= i < |results| ==> !IsGroup(isGroup, results[i])
    ensures AfterResults(isGroup, results) == Overlay(Singles(results))
  {
    hide Single, Taken, OnlyValue;
    if results == [] {
      NoSingles();
    } else {
      var n := |results| - 1;
      NoGroupKeepsSingles(isGroup, results[..n]);
      TakenSingle(isGroup, AfterResults(isGroup, results[..n]), results[n]);
      OverlaySnoc(results[..n], results[n]);
      assert results == results[..n] + [results[n]];
    }
  }

  lemma OverlaySnoc(results: seq<Result>, r: Result)
    ensures Overlay(Singles(results + [r])) == Overlay(Singles(results)) + Single(r)
  {
    MapAppend(Single, results, [r]);
    assert (Singles(results) + [Single(r)])[..|Singles(results)|] == Singles(results);
  }

  method TheValue(m: Info) returns (value: string)
    requires |m| == 1
    ensures value == OnlyValue(m)
  {
    OneKey(m);
    var k :| k in m;
    value := m[k];
  }

  method TakeResult(isGroup: map<string, bool>, info: Info, result: Result) returns (more: Info)
    ensures more == Taken(isGroup, info, result)
  {
    hide OnlyValue;
    more := info;
    if !(result.name in isGroup && isGroup[result.name]) {
      if |result.value| != 1 {
        return;
      }
      var metricValue := TheValue(result.value);
      more := more[result.name := metricValue];
    } else {
      more := result.value;
    }
  }

  method CollectResults(isGroup: map<string, bool>, results: seq<Result>) returns (info: Info)
    ensures info == AfterResults(isGroup, results)
  {
    hide Taken;
    info := map[];
    for i := 0 to |results|
      invariant info == AfterResults(isGroup, results[..i])
    {
      assert results[..i + 1][..i] == results[..i];
      info := TakeResult(isGroup, info, results[i]);
    }
    assert results[..|results|] == results;
  }

  method AddPodCounts(info: Info, nPod: map<string, int>) returns (more: Info)
    ensures more == info + PodCounts(nPod)
  {
    more := info;
    ghost var counts := PodCounts(nPod);
    var remaining := nPod.Keys;
    while remaining != {}
      invariant remaining <= nPod.Keys
      invariant more.Keys == info.Keys + (counts.Keys - remaining)
      invariant forall k :: k in more ==> more[k] == if k in counts && k !in remaining then counts[k] else info[k]
    {
      var subset :| subset in remaining;
      remaining := remaining - {subset};
      var number := nPod[subset];
      if number == 0 {
        continue;
      }
      more := more[subset := FormatInt(number)];
    }
  }

  method LayOver(info: Info, args: Info) returns (more: Info)
    ensures more == info + args
  {
    more := info;
    var remaining := args.Keys;
    while remaining != {}
      invariant remaining <= args.Keys
      invariant more == info + map k | k in args && k !in remaining :: args[k]
    {
      var key :| key in remaining;
      remaining := remaining - {key};
      more := more[key := args[key]];
    }
    assert (map k | k in args && k !in remaining :: args[k]) == args;
  }

  /** One item of a metric: what is known of a service, unless it cannot be read, and the results of its queries. */
  datatype Sample = Sample(meta: Option<StaticMeta>, results: seq<Result>)

  ghost function Consumed(m: Memory, samples: seq<Sample>): Memory {
    if samples == [] then
      m
    else
      var before, last := Consumed(m, samples[..|samples| - 1]), samples[|samples| - 1];
      if last.meta.None? then before
      else
        var meta := last.meta.value;
        Refreshed(before, KeyOf(Location(meta.name, meta.namespace)), Collected(meta, last.results))
  }

  class SmartLimiterReconciler {
    var interest: set<string>
    var metricInfo: map<string, Info>
    var lastUpdatePolicy: SmartLimiterSpec

    function Remembered(): Memory
      reads this
    {
      Memory(interest, metricInfo, lastUpdatePolicy)
    }

    constructor ()
      ensures Remembered() == NOTHING_KNOWN
    {
      interest, metricInfo, lastUpdatePolicy := {}, map[], EMPTY_SPEC;
    }

    /** Reports an error of the read, and whether the entries of the service have to leave the shared ConfigMap. */
    method Reconcile(loc: Location, answer: Answer) returns (failed: bool, cleanUp: bool)
      modifies this
      ensures Remembered() == Reconciled(old(Remembered()), KeyOf(loc), answer)
      ensures failed <==> answer.ReadError?
      ensures cleanUp <==> answer.NotFound?
    {
      failed, cleanUp := false, false;
      match answer {
        case ReadError =>
          failed := true;
        case NotFound =>
          metricInfo := metricInfo - {KeyOf(loc)};
          interest := interest - {KeyOf(loc)};
          lastUpdatePolicy := EMPTY_SPEC;
          cleanUp := true;
        case Found(spec, inScope) =>
          if !inScope {
            return;
          }
          if spec == lastUpdatePolicy {
            return;
          }
          lastUpdatePolicy := spec;
          interest := interest + {KeyOf(loc)};
      }
    }

    /** The metrics are remembered before the limiter is read, so also for one that is gone. */
    method Refresh(loc: Location, args: Info, answer: Answer) returns (failed: bool, material: Option<Info>)
      modifies this
      ensures Remembered() == Refreshed(old(Remembered()), KeyOf(loc), args)
      ensures failed <==> answer.ReadError?
      ensures material == if answer.Found? then Some(metricInfo[KeyOf(loc)]) else None
    {
      var key := KeyOf(loc);
      if key !in metricInfo {
        metricInfo := metricInfo[key := args];
      } else {
        var info := LayOver(metricInfo[key], args);
        metricInfo := metricInfo[key := info];
      }
      failed, material := answer.ReadError?, None;
      if answer.Found? {
        material := Some(metricInfo[key]);
      }
    }

    /** The samples in the order in which the map of them is visited; errors of single refreshes are only logged. */
    method ConsumeMetric(samples: seq<Sample>, answers: Location -> Answer)
      modifies this
      ensures Remembered() == Consumed(old(Remembered()), samples)
    {
      ghost var before := Remembered();
      for i := 0 to |samples|
        invariant Remembered() == Consumed(before, samples[..i])
      {
        assert samples[..i + 1][..i] == samples[..i];
        var sample := samples[i];
        if sample.meta.None? {
          continue;
        }
        var meta := sample.meta.value;
        var info := CollectResults(meta.isGroup, sample.results);
        info := AddPodCounts(info, meta.nPod);
        var loc := Location(meta.name, meta.namespace);
        var _, _ := Refresh(loc, info, answers(loc));
      }
      assert samples[..|samples|] == samples;
    }
  }

  // ----- Whole runs -----

  datatype Event = Reconcile(key: string, answer: Answer) | Refresh(key: string, args: Info)

  function Step(m: Memory, e: Event): Memory {
    match e
    case Reconcile(key, answer) => Reconciled(m, key, answer)
    case Refresh(key, args) => Refreshed(m, key, args)
  }

  function Run(events: seq<Event>): Memory {
    if events == [] then NOTHING_KNOWN else Step(Run(events[..|events| - 1]), events[|events| - 1])
  }

  /** The maps passed to refreshes of a service since its deletion was last reconciled. */
  function MapsSince(events: seq<Event>, key: string): seq<Info> {
    if events == [] then
      []
    else
      var before, last := MapsSince(events[..|events| - 1], key), events[|events| - 1];
      if last.key != key then before
      else match last
        case Reconcile(_, answer) => if answer.NotFound? then [] else before
        case Refresh(_, args) => before + [args]
  }

  /**
   The metrics of a service are the overlay of all maps since its last reconciled deletion, and are known iff there is
   one.
   */
  lemma {:induction false} MetricsAreOverlay(events: seq<Event>, key: string)
    ensures key in Run(events).metricInfo <==> MapsSince(events, key) != []
    ensures key in Run(events).metricInfo ==> Run(events).metricInfo[key] == Overlay(MapsSince(events, key))
  {
    hide Overlay;
    if events != [] {
      var init, last := events[..|events| - 1], events[|events| - 1];
      MetricsAreOverlay(init, key);
      if last.key == key {
        match last {
          case Reconcile(_, _) =>
          case Refresh(_, args) => OverlayMore(MapsSince(init, key), args);
        }
      }
    }
  }

  lemma OverlayMore(maps: seq<Info>, args: Info)
    ensures Overlay(maps + [args]) == Overlay(maps) + args
    ensures maps == [] ==> Overlay(maps + [args]) == args
  {
    assert (maps + [args])[..|maps|] == maps;
  }

  /** A limiter in scope has been reconciled, and has not been reconciled as deleted since. */
  predicate Watched(events: seq<Event>, key: string) {
    if events == [] then
      false
    else
      var before, last := Watched(events[..|events| - 1], key), events[|events| - 1];
      if last.key == key && last.Reconcile? && last.answer.NotFound? then false
      else if last.key == key && last.Reconcile? && last.answer.Found? && last.answer.inScope then true
      else before
  }

  /** The specs that limiters carry over time, as pairs of a limiter and a spec it has. */
  type Carried = set<(string, SmartLimiterSpec)>

  ghost predicate Carries(carried: Carried, events: seq<Event>) {
    forall i :: 0 <= i < |events| && events[i].Reconcile? && events[i].answer.Found? ==>
      (events[i].key, events[i].answer.spec) in carried
  }

  /** No two limiters ever carry equal specs, and none carries the empty one. */
  ghost predicate NoClash(carried: Carried) {
    forall c, d :: c in carried && d in carried && c.1 == d.1 ==> c.0 == d.0 && c.1 != EMPTY_SPEC
  }

  /** All limiters watched are of interest, in every run. */
  ghost predicate InterestComplete(carried: Carried) {
    forall events: seq<Event>, key: string :: Carries(carried, events) && Watched(events, key) ==>
      key in Run(events).interest
  }

  /** What is of interest is watched, whatever limiters carry: one that is gone or was never in scope is not. */
  lemma {:induction false} InterestIsWatched(events: seq<Event>, key: string)
    requires key in Run(events).interest
    ensures Watched(events, key)
  {
    var init, last := events[..|events| - 1], events[|events| - 1];
    if key in Run(init).interest {
      InterestIsWatched(init, key);
    }
  }

  /**
   Without clashes the policy seen last belongs to a limiter of interest, and what is watched is what is of interest.
   */
  lemma {:induction false} InterestOverRuns(carried: Carried, events: seq<Event>)
    requires NoClash(carried) && Carries(carried, events)
    ensures var m := Run(events);
      m.lastUpdatePolicy != EMPTY_SPEC ==> exists key :: key in m.interest && (key, m.lastUpdatePolicy) in carried
    ensures forall key :: Watched(events, key) <==> key in Run(events).interest
  {
    forall key | key in Run(events).interest
      ensures Watched(events, key)
    {
      InterestIsWatched(events, key);
    }
    if events != [] {
      var init, last := events[..|events| - 1], events[|events| - 1];
      assert forall i :: 0 <= i < |init| ==> init[i] == events[i];
      InterestOverRuns(carried, init);
      var before := Run(init);
      if last.Reconcile? && last.answer.Found? {
        assert (last.key, last.answer.spec) in carried;
        if last.answer.inScope && last.answer.spec == before.lastUpdatePolicy {
          var key :| key in before.interest && (key, before.lastUpdatePolicy) in carried;
          assert key == last.key;
        }
      }
    }
  }

  /**
   The one remembered policy suffices in all runs exactly if no two limiters carry equal specs and none the empty one.
   */
  lemma InterestExactly(carried: Carried)
    ensures InterestComplete(carried) <==> NoClash(carried)
  {
    if NoClash(carried) {
      forall events: seq<Event>, key: string | Carries(carried, events) && Watched(events, key)
        ensures key in Run(events).interest
      {
        InterestOverRuns(carried, events);
      }
    } else {
      var c, d :| c in carried && d in carried && c.1 == d.1 && !(c.0 == d.0 && c.1 != EMPTY_SPEC);
      if c.1 == EMPTY_SPEC {
        Overlooked(carried, [], c.0, c.1);
      } else {
        var first := Reconcile(c.0, Found(c.1, true));
        assert [first][..0] == [];
        assert Run([first]) == Memory({c.0}, map[], c.1);
        Overlooked(carried, [first], d.0, d.1);
      }
    }
  }

  lemma Overlooked(carried: Carried, events: seq<Event>, key: string, spec: SmartLimiterSpec)
    requires Carries(carried, events) && (key, spec) in carried
    requires Run(events).lastUpdatePolicy == spec && key !in Run(events).interest
    ensures !InterestComplete(carried)
  {
    var more := events + [Reconcile(key, Found(spec, true))];
    assert more[..|events|] == events;
    assert Carries(carried, more) && Watched(more, key) && key !in Run(more).interest;
  }

  /** The ticker finds the service behind a key again. */
  lemma KeyRoundTrip(loc: Location)
    requires '/' !in loc.namespace && '/' !in loc.name
    ensures Split(KeyOf(loc), '/') == [loc.namespace, loc.name]
  {
    SplitTwo(loc.namespace, loc.name, '/');
  }

  // ----- What metrics come to -----

  /** A single value counts under the name of its metric; several values, or none, do not count. */
  lemma SingleMeaning(r: Result)
    ensures forall k, v :: r.value == map[k := v] ==> Single(r) == map[r.name := v]
    ensures |r.value| != 1 ==> Single(r) == map[]
  {
    hide OnlyValue;
    forall k, v | r.value == map[k := v]
      ensures Single(r) == map[r.name := v]
    {
      OnlyOne(r.value, k, v);
    }
  }

  lemma OnlyOne(m: Info, k: string, v: string)
    requires m == map[k := v]
    ensures |m| == 1 && OnlyValue(m) == v
  {
    assert m.Keys == {k};
    assert |m| == |m.Keys| == 1;
    OneKey(m);
  }

  /** Pods are counted on top of the results, in decimal, and a subset without pods leaves what the results say. */
  lemma CollectedMeaning(meta: StaticMeta, results: seq<Result>, name: string)
    ensures var info, after := Collected(meta, results), AfterResults(meta.isGroup, results);
      if name in meta.nPod && meta.nPod[name] != 0 then name in info && info[name] == FormatInt(meta.nPod[name])
      else (name in info <==> name in after) && (name in info ==> info[name] == after[name])
  {
    hide AfterResults;
  }

  /** In layers of maps the last one that has a name decides on its value. */
  lemma {:induction false} LastLayerDecides(maps: seq<Info>, name: string)
    ensures name in Overlay(maps) <==> exists i :: 0 <= i < |maps| && name in maps[i]
    ensures forall i :: 0 <= i < |maps| && name in maps[i] && (forall j :: i < j < |maps| ==> name !in maps[j]) ==>
      name in Overlay(maps) && Overlay(maps)[name] == maps[i][name]
  {
    if maps != [] {
      var n := |maps| - 1;
      LastLayerDecides(maps[..n], name);
      assert forall i :: 0 <= i < n ==> maps[..n][i] == maps[i];
    }
  }

  /**
   The metrics that a batch of samples brings for a service: those collected from the samples of its name and
   namespace.
   */
  ghost function Brought(samples: seq<Sample>, loc: Location): seq<Info> {
    if samples == [] then
      []
    else
      var before, last := Brought(samples[..|samples| - 1], loc), samples[|samples| - 1];
      if last.meta.Some? && last.meta.value.name == loc.name && last.meta.value.namespace == loc.namespace then
        before + [Collected(last.meta.value, last.results)]
      else
        before
  }

  predicate SlashFree(loc: Location) {
    '/' !in loc.namespace && '/' !in loc.name
  }

  lemma KeysTellServices(loc: Location, other: Location)
    requires SlashFree(loc) && SlashFree(other) && KeyOf(loc) == KeyOf(other)
    ensures loc == other
  {
    KeyRoundTrip(loc);
    KeyRoundTrip(other);
  }

  /** A service's metrics after a batch are those known before, overlaid by those that the batch brings for it. */
  lemma {:induction false} ConsumedExactly(m: Memory, samples: seq<Sample>, loc: Location)
    requires SlashFree(loc)
    requires forall i :: 0 <= i < |samples| && samples[i].meta.Some? ==>
      SlashFree(Location(samples[i].meta.value.name, samples[i].meta.value.namespace))
    ensures var known := if KeyOf(loc) in m.metricInfo then [m.metricInfo[KeyOf(loc)]] else [];
      var maps := known + Brought(samples, loc); var after := Consumed(m, samples).metricInfo;
      && (KeyOf(loc) in after <==> maps != [])
      && (KeyOf(loc) in after ==> after[KeyOf(loc)] == Overlay(maps))
  {
    hide Collected, KeyOf, Overlay;
    var known := if KeyOf(loc) in m.metricInfo then [m.metricInfo[KeyOf(loc)]] else [];
    if samples == [] {
      assert known + [] == known;
      if known != [] {
        OverlayMore([], known[0]);
        assert [] + [known[0]] == known;
      }
    } else {
      var n := |samples| - 1;
      var last := samples[n];
      ConsumedExactly(m, samples[..n], loc);
      if last.meta.Some? {
        var other := Location(last.meta.value.name, last.meta.value.namespace);
        if KeyOf(other) == KeyOf(loc) {
          KeysTellServices(other, loc);
        }
        var maps := known + Brought(samples[..n], loc);
        OverlayMore(maps, Collected(last.meta.value, last.results));
        assert maps + [Collected(last.meta.value, last.results)] ==
          known + (Brought(samples[..n], loc) + [Collected(last.meta.value, last.results)]);
      }
    }
  }
}
