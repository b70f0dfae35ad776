/** EnvoyFilter objects: their names, and how a refresh drives them to what is desired. */
module FilterStore {
  import opened Seqs
  import opened Limiter
  import opened EnvoyFilters

  /** An object key of the API server. */
  datatype FilterKey = FilterKey(namespace: string, name: string)

  function FilterName(loc: Location, name: string): string {
    if name == BASE_SET then loc.name + "." + loc.namespace + ".ratelimit"
    else loc.name + "." + loc.namespace + "." + name + ".ratelimit"
  }

  function FilterKeyOf(loc: Location, name: string): FilterKey {
    FilterKey(loc.namespace, FilterName(loc, name))
  }

  predicate DotFree(loc: Location) {
    '.' !in loc.name && '.' !in loc.namespace
  }

  lemma {:induction false} FirstDot(a: string, b: string, x: string, y: string)
    requires '.' !in a && '.' !in b && a + "." + x == b + "." + y
    ensures a == b && x == y
  {
    if a == "" || b == "" {
      assert (a + "." + x)[0] == (b + "." + y)[0];
      assert a == b;
      assert (a + "." + x)[1..] == x && (b + "." + y)[1..] == y;
    } else {
      assert (a + "." + x)[1..] == a[1..] + "." + x && (b + "." + y)[1..] == b[1..] + "." + y;
      FirstDot(a[1..], b[1..], x, y);
      assert a[0] == (a + "." + x)[0] == (b + "." + y)[0] == b[0];
      assert a == [a[0]] + a[1..] && b == [b[0]] + b[1..];
    }
  }

  /** What follows the service in the name of one of its filters. */
  function NameTail(name: string): string {
    if name == BASE_SET then "ratelimit" else name + ".ratelimit"
  }

  lemma TailInjective(name: string, other: string)
    requires NameTail(name) == NameTail(other)
    ensures name == other
  {
    var end := ".ratelimit";
    assert |"ratelimit"| == 9 && |end| == 10;
    if name != BASE_SET && other != BASE_SET {
      assert (name + end)[..|name|] == name && (other + end)[..|other|] == other;
    }
  }

  lemma NameParts(loc: Location, name: string)
    ensures FilterName(loc, name) == loc.name + "." + (loc.namespace + "." + NameTail(name))
  {
  }

  /** Over all services and all sets, whose names may hold dots, no two filters have one name. */
  lemma FilterNamesInjective(loc: Location, name: string, other: Location, name': string)
    requires DotFree(loc) && DotFree(other)
    requires FilterName(loc, name) == FilterName(other, name')
    ensures loc == other && name == name'
  {
    NameParts(loc, name);
    NameParts(other, name');
    FirstDot(loc.name, other.name, loc.namespace + "." + NameTail(name), other.namespace + "." + NameTail(name'));
    FirstDot(loc.namespace, other.namespace, NameTail(name), NameTail(name'));
    TailInjective(name, name');
  }

  /** Within one service that needs no condition on the service's name. */
  lemma SetNamesInjective(loc: Location, name: string, name': string)
    requires FilterName(loc, name) == FilterName(loc, name')
    ensures name == name'
  {
    hide FilterName, NameTail;
    NameParts(loc, name);
    NameParts(loc, name');
    Cancel(loc.name + ".", loc.namespace + "." + NameTail(name), loc.namespace + "." + NameTail(name'));
    Cancel(loc.namespace + ".", NameTail(name), NameTail(name'));
    TailInjective(name, name');
  }

  lemma Cancel(head: string, tail: string, other: string)
    requires head + tail == head + other
    ensures tail == other
  {
    assert (head + tail)[|head|..] == tail && (head + other)[|head|..] == other;
  }

  // ----- One filter -----

  /** A filter in the API server, with the revision of the mesh it belongs to. */
  datatype Stored = Stored(spec: EnvoyFilter, revision: string)

  type Store = map<FilterKey, Stored>

  /**
   What goes wrong with one filter: setting the owner, the read, or the write, which may be refused or lose its answer.
   */
  datatype Fault = Fault(owner: bool, read: bool, write: WriteFault)

  datatype WriteFault = Healthy | Refused | AnswerLost

  const NO_FAULT := Fault(false, false, Healthy)

  function Find(store: Store, key: FilterKey): Option<Stored> {
    if key in store then Some(store[key]) else None
  }

  function Put(store: Store, key: FilterKey, value: Option<Stored>): Store {
    if value.Some? then store[key := value.value] else store - {key}
  }

  /** The filter after a refresh without faults; one of another revision is left alone. */
  function Driven(found: Option<Stored>, desired: Option<EnvoyFilter>, revision: string): Option<Stored> {
    if found.Some? && found.value.revision != revision then found
    else if desired.None? then None
    else if found.Some? && found.value.spec == desired.value then found
    else Some(Stored(desired.value, revision))
  }

  function Outcome(found: Option<Stored>, desired: Option<EnvoyFilter>, revision: string,
      fault: Fault): Option<Stored> {
    if fault.owner || fault.read || fault.write.Refused? then found else Driven(found, desired, revision)
  }

  predicate NeedsWrite(found: Option<Stored>, desired: Option<EnvoyFilter>, revision: string) {
    Driven(found, desired, revision) != found
  }

  class ApiServer {
    var filters: Store
    var writes: nat

    constructor (filters: Store)
      ensures this.filters == filters && writes == 0
    {
      this.filters := filters;
      writes := 0;
    }

    /** A create, update or delete that carries out `value` unless the fault prevents it. */
    method Write(key: FilterKey, value: Option<Stored>, fault: WriteFault) returns (failed: bool)
      modifies this
      ensures writes == old(writes) + 1
      ensures filters == if fault.Refused? then old(filters) else Put(old(filters), key, value)
      ensures failed <==> !fault.Healthy?
    {
      writes := writes + 1;
      if !fault.Refused? {
        if value.Some? {
          filters := filters[key := value.value];
        } else {
          filters := filters - {key};
        }
      }
      failed := !fault.Healthy?;
    }

    method RefreshEnvoyFilter(key: FilterKey, desired: Option<EnvoyFilter>, revision: string,
        fault: Fault)
      returns (failed: bool)
      modifies this
      ensures forall other :: other != key ==> Find(filters, other) == Find(old(filters), other)
      ensures Find(filters, key) == Outcome(Find(old(filters), key), desired, revision, fault)
      ensures !NeedsWrite(Find(old(filters), key), desired, revision) ==> writes == old(writes)
      ensures old(writes) <= writes <= old(writes) + 1
      ensures !failed ==> Find(filters, key) == Driven(Find(old(filters), key), desired, revision)
      ensures failed <==>
        fault.owner || fault.read || (NeedsWrite(Find(old(filters), key), desired, revision) && fault.write != Healthy)
    {
      if fault.owner || fault.read {
        return true;
      }
      failed := false;
      if key !in filters {
        if desired.Some? {
          failed := Write(key, Some(Stored(desired.value, revision)), fault.write);
        }
      } else {
        var found := filters[key];
        if found.revision != revision {
          return false;
        }
        if desired.Some? {
          if found.spec != desired.value {
            failed := Write(key, Some(Stored(desired.value, revision)), fault.write);
          }
        } else {
          failed := Write(key, None, fault.write);
        }
      }
    }

    /** The filters of all sets, in whatever order the map is visited; a filter that fails does not stop the others. */
    method RefreshAll(loc: Location, revision: string, efs: map<string, Option<EnvoyFilter>>, faults: string -> Fault)
      modifies this
      ensures filters == AfterPass(old(filters), Pass(loc, revision, efs, faults))
      ensures Settled(old(filters), loc, revision, efs) ==> writes == old(writes)
    {
      ghost var before, pass := filters, Pass(loc, revision, efs, faults);
      var remaining := efs.Keys;
      PassStarts(before, pass);
      while remaining != {}
        invariant remaining <= efs.Keys
        invariant PartOfPass(before, pass, remaining, filters)
        invariant Settled(before, loc, revision, efs) ==> writes == old(writes)
      {
        var name :| name in remaining;
        var key := FilterKeyOf(loc, name);
        ghost var current := filters;
        assert InSome(pass.loc, remaining, key);
        var _ := RefreshEnvoyFilter(key, efs[name], revision, faults(name));
        PartSnoc(before, pass, remaining, current, filters, name);
        remaining := remaining - {name};
      }
      SameStore(filters, AfterPass(before, pass));
    }
  }

  // ----- One pass over the filters of a limiter -----

  /** A refresh of a limiter: its sets with their desired filters, and what goes wrong with each. */
  datatype Pass = Pass(loc: Location, revision: string, efs: map<string, Option<EnvoyFilter>>, faults: string -> Fault)

  /** What a pass leaves under a key. */
  ghost function ResultAt(before: Store, p: Pass, key: FilterKey): Option<Stored> {
    if exists name :: name in p.efs && FilterKeyOf(p.loc, name) == key then
      var name :| name in p.efs && FilterKeyOf(p.loc, name) == key;
      Outcome(Find(before, key), p.efs[name], p.revision, p.faults(name))
    else
      Find(before, key)
  }

  ghost function KeysOf(p: Pass): set<FilterKey> {
    set name | name in p.efs :: FilterKeyOf(p.loc, name)
  }

  ghost function AfterPass(before: Store, p: Pass): (after: Store)
    ensures forall key :: Find(after, key) == ResultAt(before, p, key)
  {
    map key | key in before.Keys + KeysOf(p) && ResultAt(before, p, key).Some? :: ResultAt(before, p, key).value
  }

  ghost predicate InSome(loc: Location, names: set<string>, key: FilterKey) {
    exists name :: name in names && FilterKeyOf(loc, name) == key
  }

  /** A pass that has still to visit some of its sets. */
  ghost predicate PartOfPass(before: Store, p: Pass, remaining: set<string>, current: Store) {
    forall key :: Find(current, key) ==
      if InSome(p.loc, remaining, key) then Find(before, key) else ResultAt(before, p, key)
  }

  lemma PartSnoc(before: Store, p: Pass, remaining: set<string>, current: Store, next: Store, name: string)
    requires name in remaining && remaining <= p.efs.Keys && PartOfPass(before, p, remaining, current)
    requires var key := FilterKeyOf(p.loc, name);
      && Find(next, key) == Outcome(Find(current, key), p.efs[name], p.revision, p.faults(name))
      && forall other :: other != key ==> Find(next, other) == Find(current, other)
    ensures PartOfPass(before, p, remaining - {name}, next)
  {
    var key := FilterKeyOf(p.loc, name);
    assert InSome(p.loc, remaining, key);
    ResultOfSet(before, p, name);
    forall other
      ensures Find(next, other) ==
        if InSome(p.loc, remaining - {name}, other) then Find(before, other) else ResultAt(before, p, other)
    {
      if other == key {
        if n :| n in remaining - {name} && FilterKeyOf(p.loc, n) == key {
          SetNamesInjective(p.loc, n, name);
        }
      } else if n :| n in remaining && FilterKeyOf(p.loc, n) == other {
        assert n in remaining - {name};
      }
    }
  }

  lemma PassStarts(before: Store, p: Pass)
    ensures PartOfPass(before, p, p.efs.Keys, before)
  {
    forall key
      ensures Find(before, key) ==
        if InSome(p.loc, p.efs.Keys, key) then Find(before, key) else ResultAt(before, p, key)
    {
      assert (exists name :: name in p.efs && FilterKeyOf(p.loc, name) == key) ==> InSome(p.loc, p.efs.Keys, key);
    }
  }

  /** Nothing is left to do. */
  ghost predicate Settled(store: Store, loc: Location, revision: string, efs: map<string, Option<EnvoyFilter>>) {
    forall name :: name in efs ==> !NeedsWrite(Find(store, FilterKeyOf(loc, name)), efs[name], revision)
  }

  lemma ResultOfSet(before: Store, p: Pass, name: string)
    requires name in p.efs
    ensures var key := FilterKeyOf(p.loc, name);
      ResultAt(before, p, key) == Outcome(Find(before, key), p.efs[name], p.revision, p.faults(name))
  {
    var key := FilterKeyOf(p.loc, name);
    var chosen :| chosen in p.efs && FilterKeyOf(p.loc, chosen) == key
      && ResultAt(before, p, key) == Outcome(Find(before, key), p.efs[chosen], p.revision, p.faults(chosen));
    assert FilterKeyOf(p.loc, chosen).name == FilterKeyOf(p.loc, name).name;
    SetNamesInjective(p.loc, chosen, name);
  }

  lemma SameStore(a: Store, b: Store)
    requires forall key :: Find(a, key) == Find(b, key)
    ensures a == b
  {
    forall key
      ensures key in a <==> key in b
      ensures key in a ==> a[key] == b[key]
    {
      assert Find(a, key) == Find(b, key);
    }
  }

  /** A filter is as desired: absent, or with the desired spec. */
  ghost predicate AsDesired(store: Store, loc: Location, name: string, desired: Option<EnvoyFilter>) {
    var found := Find(store, FilterKeyOf(loc, name));
    if desired.None? then found.None? else found.Some? && found.value.spec == desired.value
  }

  /**
   After a pass without faults a filter is as desired, unless it belongs to another revision and was not so already.
   */
  lemma DrivenExactly(before: Store, p: Pass, name: string)
    requires name in p.efs && p.faults(name) == NO_FAULT
    ensures var found := Find(before, FilterKeyOf(p.loc, name));
      AsDesired(AfterPass(before, p), p.loc, name, p.efs[name]) <==>
        found.None? || found.value.revision == p.revision || p.efs[name] == Some(found.value.spec)
  {
    ResultOfSet(before, p, name);
  }

  /**
   Convergence: a pass without faults over filters of its own revision leaves every one as desired, and nothing to
   write.
   */
  lemma Converges(before: Store, p: Pass)
    requires forall name :: name in p.efs ==> p.faults(name) == NO_FAULT
    requires forall name :: name in p.efs && FilterKeyOf(p.loc, name) in before ==>
      before[FilterKeyOf(p.loc, name)].revision == p.revision
    ensures forall name :: name in p.efs ==> AsDesired(AfterPass(before, p), p.loc, name, p.efs[name])
    ensures Settled(AfterPass(before, p), p.loc, p.revision, p.efs)
    ensures forall key :: key !in KeysOf(p) ==> Find(AfterPass(before, p), key) == Find(before, key)
    ensures AfterPass(AfterPass(before, p), p) == AfterPass(before, p)
  {
    var after := AfterPass(before, p);
    forall name | name in p.efs
      ensures AsDesired(after, p.loc, name, p.efs[name])
      ensures !NeedsWrite(Find(after, FilterKeyOf(p.loc, name)), p.efs[name], p.revision)
    {
      DrivenExactly(before, p, name);
      ResultOfSet(before, p, name);
    }
    SettledStays(after, p);
  }

  /** A pass over filters of its own revision leaves filters of its own revision. */
  lemma RevisionKept(before: Store, p: Pass, name: string)
    requires name in p.efs
    requires FilterKeyOf(p.loc, name) in before ==> before[FilterKeyOf(p.loc, name)].revision == p.revision
    ensures var found := Find(AfterPass(before, p), FilterKeyOf(p.loc, name));
      found.Some? ==> found.value.revision == p.revision
  {
    ResultOfSet(before, p, name);
  }

  /** A pass over a settled store changes nothing, whatever goes wrong. */
  lemma SettledStays(store: Store, p: Pass)
    requires Settled(store, p.loc, p.revision, p.efs)
    ensures AfterPass(store, p) == store
  {
    forall key
      ensures Find(AfterPass(store, p), key) == Find(store, key)
    {
      if name :| name in p.efs && FilterKeyOf(p.loc, name) == key {
        ResultOfSet(store, p, name);
      }
    }
    SameStore(AfterPass(store, p), store);
  }

  /** With faults every filter is where it was or where it should be. */
  lemma OldOrDriven(before: Store, p: Pass, name: string)
    requires name in p.efs
    ensures var key := FilterKeyOf(p.loc, name); var after := Find(AfterPass(before, p), key);
      after == Find(before, key) || after == Driven(Find(before, key), p.efs[name], p.revision)
  {
    ResultOfSet(before, p, name);
  }

  /** Nothing goes wrong, and no filter of another revision is in the way. */
  ghost predicate IsClean(before: Store, p: Pass) {
    && (forall name :: name in p.efs ==> p.faults(name) == NO_FAULT)
    && forall name :: name in p.efs && FilterKeyOf(p.loc, name) in before ==>
      before[FilterKeyOf(p.loc, name)].revision == p.revision
  }

  /** The specs of the filters that are stored for some sets of a service. */
  function StoredFilters(store: Store, loc: Location, names: set<string>): map<string, Option<EnvoyFilter>> {
    map name | name in names ::
      var found := Find(store, FilterKeyOf(loc, name));
      if found.Some? then Some(found.value.spec) else None
  }

  /** What a pass without faults over filters of its own revision stores is what was generated. */
  lemma StoredAsGenerated(before: Store, p: Pass)
    requires IsClean(before, p)
    ensures StoredFilters(AfterPass(before, p), p.loc, p.efs.Keys) == p.efs
  {
    hide FilterKeyOf, AfterPass;
    var after := AfterPass(before, p);
    Converges(before, p);
    forall name | name in p.efs
      ensures StoredFilters(after, p.loc, p.efs.Keys)[name] == p.efs[name]
    {
      assert AsDesired(after, p.loc, name, p.efs[name]);
    }
  }

  /** A pass leaves the filters of the service's other sets as they are. */
  lemma OtherSetsUntouched(before: Store, p: Pass, name: string)
    requires name !in p.efs
    ensures Find(AfterPass(before, p), FilterKeyOf(p.loc, name)) == Find(before, FilterKeyOf(p.loc, name))
  {
    if n :| n in p.efs && FilterKeyOf(p.loc, n) == FilterKeyOf(p.loc, name) {
      SetNamesInjective(p.loc, n, name);
    }
  }

  /** A pass over no filters at all leaves filters of its own sets and its own revision only. */
  lemma FirstPass(p: Pass, key: FilterKey)
    requires key in AfterPass(map[], p)
    ensures AfterPass(map[], p)[key].revision == p.revision
    ensures exists name :: name in p.efs && FilterKeyOf(p.loc, name) == key
  {
    assert Find(AfterPass(map[], p), key) == ResultAt(map[], p, key);
    if name :| name in p.efs && FilterKeyOf(p.loc, name) == key {
      ResultOfSet(map[], p, name);
    }
  }

  // ----- Runs over many services -----

  ghost function AfterPasses(before: Store, passes: seq<Pass>): Store {
    if passes == [] then before
    else AfterPass(AfterPasses(before, passes[..|passes| - 1]), passes[|passes| - 1])
  }

  function PassesOf(passes: seq<Pass>, loc: Location): seq<Pass> {
    Filter((p: Pass) => p.loc == loc, passes)
  }

  /** The result under a key depends on what was under that key only. */
  lemma ResultIsLocal(a: Store, b: Store, p: Pass, key: FilterKey)
    requires Find(a, key) == Find(b, key)
    ensures Find(AfterPass(a, p), key) == Find(AfterPass(b, p), key)
  {
    if name :| name in p.efs && FilterKeyOf(p.loc, name) == key {
      ResultOfSet(a, p, name);
      ResultOfSet(b, p, name);
    }
  }

  lemma OthersUntouched(before: Store, p: Pass, loc: Location, name: string)
    requires DotFree(loc) && DotFree(p.loc)
    requires p.loc != loc || name !in p.efs
    ensures Find(AfterPass(before, p), FilterKeyOf(loc, name)) == Find(before, FilterKeyOf(loc, name))
  {
    if n :| n in p.efs && FilterKeyOf(p.loc, n) == FilterKeyOf(loc, name) {
      FilterNamesInjective(p.loc, n, loc, name);
    }
  }

  /** In any run of refreshes the filters of a service are those its own refreshes alone would leave. */
  lemma {:induction false} ServicesIndependent(before: Store, passes: seq<Pass>, loc: Location, name: string)
    requires DotFree(loc) && forall i :: 0 <= i < |passes| ==> DotFree(passes[i].loc)
    ensures Find(AfterPasses(before, passes), FilterKeyOf(loc, name)) ==
      Find(AfterPasses(before, PassesOf(passes, loc)), FilterKeyOf(loc, name))
  {
    if passes != [] {
      var n := |passes| - 1;
      var init, last := passes[..n], passes[n];
      ServicesIndependent(before, init, loc, name);
      FilterSnoc((p: Pass) => p.loc == loc, passes, n);
      assert passes[..n + 1] == passes;
      if last.loc == loc {
        var mine := PassesOf(init, loc);
        assert (mine + [last])[..|mine|] == mine;
        ResultIsLocal(AfterPasses(before, init), AfterPasses(before, mine), last, FilterKeyOf(loc, name));
      } else {
        assert PassesOf(init, loc) + [] == PassesOf(init, loc);
        OthersUntouched(AfterPasses(before, init), last, loc, name);
      }
    }
  }

  /** The filter of a set that refreshes no longer mention stays as it is: removed subsets are not cleaned up. */
  lemma {:induction false} UnmentionedSetKeepsFilter(before: Store, passes: seq<Pass>, loc: Location, name: string)
    requires DotFree(loc) && forall i :: 0 <= i < |passes| ==> DotFree(passes[i].loc)
    requires forall i :: 0 <= i < |passes| ==> passes[i].loc != loc || name !in passes[i].efs
    ensures Find(AfterPasses(before, passes), FilterKeyOf(loc, name)) == Find(before, FilterKeyOf(loc, name))
  {
    if passes != [] {
      var n := |passes| - 1;
      UnmentionedSetKeepsFilter(before, passes[..n], loc, name);
      OthersUntouched(AfterPasses(before, passes[..n]), passes[n], loc, name);
    }
  }

  // ----- Names, faults and revisions -----

  /** The filter of a service is in the namespace of its workloads, under the name that users look it up by. */
  lemma FilterKeyMeaning(loc: Location, name: string)
    ensures FilterKeyOf(loc, name).namespace == loc.namespace
    ensures FilterKeyOf(Location("productpage", "default"), "_base") ==
      FilterKey("default", "productpage.default.ratelimit")
    ensures FilterKeyOf(Location("reviews", "dev"), "v1") == FilterKey("dev", "reviews.dev.v1.ratelimit")
  {
    assert "productpage" + "." + "default" + ".ratelimit" == "productpage.default.ratelimit";
    assert "reviews" + "." + "dev" + "." + "v1" + ".ratelimit" == "reviews.dev.v1.ratelimit";
  }

  /** A filter of another revision of the mesh is left to it, whatever is desired. */
  lemma OtherRevisionUntouched(before: Store, p: Pass, name: string)
    requires FilterKeyOf(p.loc, name) in before && before[FilterKeyOf(p.loc, name)].revision != p.revision
    ensures Find(AfterPass(before, p), FilterKeyOf(p.loc, name)) == Find(before, FilterKeyOf(p.loc, name))
  {
    if name in p.efs {
      ResultOfSet(before, p, name);
    } else {
      OtherSetsUntouched(before, p, name);
    }
  }

  /** A filter whose owner cannot be set, that cannot be read, or whose write is refused stays as it was. */
  lemma FaultyStays(before: Store, p: Pass, name: string)
    requires name in p.efs && (p.faults(name).owner || p.faults(name).read || p.faults(name).write == Refused)
    ensures Find(AfterPass(before, p), FilterKeyOf(p.loc, name)) == Find(before, FilterKeyOf(p.loc, name))
  {
    ResultOfSet(before, p, name);
  }

  /**
   Otherwise a filter that is created or updated carries the desired spec and the limiter's revision, lost answer or
   not.
   */
  lemma CarriedOut(before: Store, p: Pass, name: string)
    requires name in p.efs && !p.faults(name).owner && !p.faults(name).read && p.faults(name).write != Refused
    requires FilterKeyOf(p.loc, name) in before ==> before[FilterKeyOf(p.loc, name)].revision == p.revision
    ensures Find(AfterPass(before, p), FilterKeyOf(p.loc, name)) ==
      if p.efs[name].None? then None else Some(Stored(p.efs[name].value, p.revision))
  {
    ResultOfSet(before, p, name);
  }
}
