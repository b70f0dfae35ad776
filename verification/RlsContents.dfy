/** What the shared list holds over whole runs: for each service, what its latest refresh put there. */
module RlsContents {
  import opened Seqs
  import opened Limiter
  import opened Descriptors
  import opened RateLimits
  import opened RlsConfigMap
  import opened Serial

  /** The list after refreshes one after another. */
  function Fold(list: seq<RlsEntry>, ops: seq<Op>): seq<RlsEntry> {
    if ops == [] then list else NewList(Fold(list, ops[..|ops| - 1]), ops[|ops| - 1])
  }

  function ClaimedBy(loc: Location): RlsEntry -> bool {
    (e: RlsEntry) => Claims(loc, e.value)
  }

  function OfOthers(loc: Location): Op -> bool {
    (op: Op) => op.loc != loc
  }

  /** An entry named by the service, whatever the checksum. */
  ghost predicate NamedBy(loc: Location, e: RlsEntry) {
    exists id: nat :: e.value == Name(loc.name, loc.namespace, id)
  }

  /** The entries of a refresh carry the service's own name, which is free of punctuation. */
  ghost predicate OwnNames(op: Op) {
    PlainLocation(op.loc) && forall i :: 0 <= i < |op.desc| ==> NamedBy(op.loc, op.desc[i])
  }

  /** No service claims entries of another. */
  ghost predicate Separate(locs: set<Location>) {
    forall a, b :: a in locs && b in locs && a != b ==> !Overlap(a, b)
  }

  /** Refreshes of some services, each with entries of its own. */
  ghost predicate RefreshesOf(locs: set<Location>, ops: seq<Op>) {
    forall i :: 0 <= i < |ops| ==> ops[i].loc in locs && OwnNames(ops[i])
  }

  ghost predicate Mentions(ops: seq<Op>, loc: Location) {
    exists i :: 0 <= i < |ops| && ops[i].loc == loc
  }

  /** The entries of the latest refresh of a service. */
  function Latest(ops: seq<Op>, loc: Location): seq<RlsEntry> {
    if ops == [] then [] else if ops[|ops| - 1].loc == loc then ops[|ops| - 1].desc else Latest(ops[..|ops| - 1], loc)
  }

  /** The latest entries of every service, in the order of their latest refreshes. */
  function LatestOfAll(ops: seq<Op>): seq<RlsEntry>
    decreases |ops|
  {
    if ops == [] then
      []
    else
      var last, others := ops[|ops| - 1], Filter(OfOthers(ops[|ops| - 1].loc), ops[..|ops| - 1]);
      FilterShorter(OfOthers(last.loc), ops[..|ops| - 1]);
      LatestOfAll(others) + last.desc
  }

  function Unclaimed(ops: seq<Op>): RlsEntry -> bool {
    (e: RlsEntry) => forall i :: 0 <= i < |ops| ==> !Claims(ops[i].loc, e.value)
  }

  /** A refresh's own entries are all claimed by its service, and by no service apart from it. */
  lemma OwnEntries(op: Op, loc: Location)
    requires OwnNames(op) && PlainLocation(loc)
    ensures loc == op.loc ==> Filter(ClaimedBy(loc), op.desc) == op.desc && Filter(NotClaimedBy(loc), op.desc) == []
    ensures !Overlap(loc, op.loc) ==>
      Filter(ClaimedBy(loc), op.desc) == [] && Filter(NotClaimedBy(loc), op.desc) == op.desc
  {
    forall e | e in op.desc
      ensures Claims(loc, e.value) <==> Overlap(loc, op.loc)
    {
      var i :| 0 <= i < |op.desc| && op.desc[i] == e;
      var id: nat :| op.desc[i].value == Name(op.loc.name, op.loc.namespace, id);
      ClaimsExactly(loc, op.loc, id);
    }
    if loc == op.loc {
      FilterAll(ClaimedBy(loc), op.desc);
      FilterNone(NotClaimedBy(loc), op.desc);
    }
    if !Overlap(loc, op.loc) {
      FilterNone(ClaimedBy(loc), op.desc);
      FilterAll(NotClaimedBy(loc), op.desc);
    }
  }

  lemma FiltersCommute<T>(p: T -> bool, q: T -> bool, s: seq<T>)
    ensures Filter(p, Filter(q, s)) == Filter(q, Filter(p, s))
  {
    var both := x => p(x) && q(x);
    FilterTwice(p, q, both, s);
    FilterTwice(q, p, both, s);
  }

  lemma ClaimedNotClaimed(loc: Location, list: seq<RlsEntry>)
    ensures Filter(ClaimedBy(loc), Filter(NotClaimedBy(loc), list)) == []
  {
    InFilter(NotClaimedBy(loc), list);
    FilterNone(ClaimedBy(loc), Filter(NotClaimedBy(loc), list));
  }

  /**
   A service's part of the list is what its latest refresh wanted; a list that a deletion left empty has none of it.
   */
  lemma {:induction false} ServiceContents(locs: set<Location>, list: seq<RlsEntry>, ops: seq<Op>, loc: Location)
    requires Separate(locs) && RefreshesOf(locs, ops)
    requires Mentions(ops, loc)
    ensures Filter(ClaimedBy(loc), Fold(list, ops)) == Latest(ops, loc)
  {
    var init, last := ops[..|ops| - 1], ops[|ops| - 1];
    var before := Fold(list, init);
    var k :| 0 <= k < |ops| && ops[k].loc == loc;
    assert PlainLocation(loc) by {
      assert OwnNames(ops[k]);
    }
    assert OwnNames(last);
    OwnEntries(last, loc);
    FilterAppend(ClaimedBy(loc), Filter(NotClaimedBy(last.loc), before), last.desc);
    if last.loc == loc {
      ClaimedNotClaimed(loc, before);
    } else {
      assert init[k] == ops[k];
      ServiceContents(locs, list, init, loc);
      FiltersCommute(ClaimedBy(loc), NotClaimedBy(last.loc), before);
      LatestIsOwn(init, loc);
      var own := Op(loc, Latest(init, loc));
      OwnEntries(own, last.loc);
    }
  }

  lemma {:induction false} LatestIsOwn(ops: seq<Op>, loc: Location)
    requires forall i :: 0 <= i < |ops| ==> OwnNames(ops[i])
    requires PlainLocation(loc)
    ensures OwnNames(Op(loc, Latest(ops, loc)))
  {
    if ops != [] {
      var last := ops[|ops| - 1];
      assert OwnNames(last);
      if last.loc != loc {
        LatestIsOwn(ops[..|ops| - 1], loc);
      }
    }
  }

  // ----- The whole list -----

  lemma UnclaimedSnoc(ops: seq<Op>, op: Op, list: seq<RlsEntry>)
    ensures Filter(NotClaimedBy(op.loc), Filter(Unclaimed(ops), list)) == Filter(Unclaimed(ops + [op]), list)
  {
    var more := ops + [op];
    forall e | e in list
      ensures (Unclaimed(ops)(e) && NotClaimedBy(op.loc)(e)) == Unclaimed(more)(e)
    {
      assert forall i :: 0 <= i < |ops| ==> more[i] == ops[i];
      assert more[|ops|] == op;
    }
    FilterTwice(NotClaimedBy(op.loc), Unclaimed(ops), Unclaimed(more), list);
  }

  lemma OthersKeepRefreshes(locs: set<Location>, ops: seq<Op>, loc: Location)
    requires RefreshesOf(locs, ops)
    ensures RefreshesOf(locs, Filter(OfOthers(loc), ops))
    ensures |Filter(OfOthers(loc), ops)| <= |ops|
  {
    InFilter(OfOthers(loc), ops);
    FilterShorter(OfOthers(loc), ops);
    var others := Filter(OfOthers(loc), ops);
    forall i | 0 <= i < |others|
      ensures others[i].loc in locs && OwnNames(others[i])
    {
      assert others[i] in others;
    }
  }

  /** Dropping a service's entries from the list of latest entries is dropping its refreshes. */
  lemma {:induction false} DropService(locs: set<Location>, ops: seq<Op>, loc: Location)
    requires Separate(locs) && RefreshesOf(locs, ops) && loc in locs && PlainLocation(loc)
    ensures Filter(NotClaimedBy(loc), LatestOfAll(ops)) == LatestOfAll(Filter(OfOthers(loc), ops))
    decreases |ops|
  {
    if ops != [] {
      var init, last := ops[..|ops| - 1], ops[|ops| - 1];
      var others := Filter(OfOthers(last.loc), init);
      OthersKeepRefreshes(locs, init, last.loc);
      DropService(locs, others, loc);
      FilterAppend(NotClaimedBy(loc), LatestOfAll(others), last.desc);
      assert OwnNames(last);
      OwnEntries(last, loc);
      FiltersCommute(OfOthers(loc), OfOthers(last.loc), init);
      FilterSnoc(OfOthers(loc), ops, |ops| - 1);
      assert ops[..|ops| - 1 + 1] == ops;
      DropLast(init, last, loc);
    }
  }

  lemma DropLast(init: seq<Op>, last: Op, loc: Location)
    requires Filter(OfOthers(loc), Filter(OfOthers(last.loc), init)) ==
      Filter(OfOthers(last.loc), Filter(OfOthers(loc), init))
    ensures LatestOfAll(Filter(OfOthers(loc), init) + if last.loc == loc then [] else [last]) ==
      LatestOfAll(Filter(OfOthers(loc), Filter(OfOthers(last.loc), init))) + if last.loc == loc then [] else last.desc
  {
    var kept := Filter(OfOthers(loc), init);
    if last.loc == loc {
      InFilter(OfOthers(loc), init);
      FilterAll(OfOthers(loc), kept);
      assert kept + [] == kept;
      assert LatestOfAll(kept) + [] == LatestOfAll(kept);
    } else {
      assert (kept + [last])[..|kept|] == kept;
    }
  }

  /**
   The whole list after any refreshes of services that keep apart: first what no service claims, in its old order, then
   the latest entries of each service. The only thing left of earlier refreshes is nothing.
   */
  lemma {:induction false} ListContents(locs: set<Location>, list: seq<RlsEntry>, ops: seq<Op>)
    requires Separate(locs) && RefreshesOf(locs, ops)
    ensures Fold(list, ops) == Filter(Unclaimed(ops), list) + LatestOfAll(ops)
  {
    hide LatestOfAll, NewList;
    if ops == [] {
      NoneLatest();
      FilterAll(Unclaimed(ops), list);
    } else {
      var init, last := ops[..|ops| - 1], ops[|ops| - 1];
      assert ops == init + [last];
      ListContents(locs, list, init);
      assert OwnNames(last);
      DropService(locs, init, last.loc);
      ListStep(list, init, last);
    }
  }

  lemma NoneLatest()
    ensures LatestOfAll([]) == []
  {
  }

  lemma ListStep(list: seq<RlsEntry>, init: seq<Op>, last: Op)
    requires Filter(NotClaimedBy(last.loc), LatestOfAll(init)) == LatestOfAll(Filter(OfOthers(last.loc), init))
    ensures NewList(Filter(Unclaimed(init), list) + LatestOfAll(init), last) ==
      Filter(Unclaimed(init + [last]), list) + LatestOfAll(init + [last])
  {
    hide LatestOfAll, Filter;
    FilterAppend(NotClaimedBy(last.loc), Filter(Unclaimed(init), list), LatestOfAll(init));
    UnclaimedSnoc(init, last, list);
    LatestSnoc(init, last);
  }

  lemma LatestSnoc(init: seq<Op>, last: Op)
    ensures LatestOfAll(init + [last]) == LatestOfAll(Filter(OfOthers(last.loc), init)) + last.desc
  {
    assert (init + [last])[..|init|] == init;
  }

  /** An entry's name as the first refresh of a service would write it. */
  function SampleEntry(loc: Location): RlsEntry {
    RlsEntry(GENERIC_KEY, Name(loc.name, loc.namespace, 0), RateLimit(1, "SECOND"))
  }

  /** In all runs of refreshes every service finds its latest entries in the list. */
  ghost predicate KeepsAll(locs: set<Location>) {
    forall list: seq<RlsEntry>, ops: seq<Op>, k: nat ::
      RefreshesOf(locs, ops) && k < |ops| ==> Filter(ClaimedBy(ops[k].loc), Fold(list, ops)) == Latest(ops, ops[k].loc)
  }

  /** A service that claims another's entries wipes them out. */
  lemma OverlapLoses(locs: set<Location>, a: Location, b: Location)
    requires a in locs && b in locs && a != b && PlainLocation(a) && PlainLocation(b) && Overlap(a, b)
    ensures !KeepsAll(locs)
  {
    var e := SampleEntry(b);
    var first, second := Op(b, [e]), Op(a, []);
    var ops := [first, second];
    ClaimsExactly(a, b, 0);
    assert OwnNames(first) by {
      assert first.desc[0].value == Name(b.name, b.namespace, 0);
    }
    assert RefreshesOf(locs, ops);
    assert ops[..1] == [first] && ops[..1][..0] == [];
    assert Fold([], [first]) == [e];
    assert !NotClaimedBy(a)(e) && Filter(NotClaimedBy(a), [e]) == [];
    assert Fold([], ops) == [];
    assert Latest(ops, b) == [e];
    assert Filter(ClaimedBy(ops[0].loc), Fold([], ops)) != Latest(ops, ops[0].loc);
  }

  /**
   The services of a cluster keep their entries in all runs exactly if no service's name ends, with its namespace
   beginning, another's.
   */
  lemma KeepsAllExactly(locs: set<Location>)
    requires forall loc :: loc in locs ==> PlainLocation(loc)
    ensures KeepsAll(locs) <==> Separate(locs)
  {
    if Separate(locs) {
      forall list: seq<RlsEntry>, ops: seq<Op>, k: nat | RefreshesOf(locs, ops) && k < |ops|
        ensures Filter(ClaimedBy(ops[k].loc), Fold(list, ops)) == Latest(ops, ops[k].loc)
      {
        ServiceContents(locs, list, ops, ops[k].loc);
      }
    } else {
      var a, b :| a in locs && b in locs && a != b && Overlap(a, b);
      OverlapLoses(locs, a, b);
    }
  }

  // ----- Interleaved calls -----

  ghost predicate NoOthers(items: seq<Item>) {
    forall i :: 0 <= i < |items| ==> items[i].OfCall?
  }

  /** The refreshes of a serial order. */
  function OpsOf(calls: seq<Call>, items: seq<Item>): seq<Op> {
    if items == [] then
      []
    else
      OpsOf(calls, items[..|items| - 1])
      + match items[|items| - 1]
        case OfCall(id) => if id < |calls| then [calls[id].op] else []
        case OfOther(_) => []
  }

  lemma {:induction false} ReplayIsFold(calls: seq<Call>, data: Option<Data>, items: seq<Item>)
    requires NoOthers(items) && ListOf(data).Some?
    ensures ListOf(Replay(calls, data, items)) == Some(Fold(ListOf(data).value, OpsOf(calls, items)))
  {
    if items != [] {
      var init, id := items[..|items| - 1], items[|items| - 1].id;
      ReplayIsFold(calls, data, init);
      if id < |calls| {
        ApplyList(calls[id].op, Replay(calls, data, init));
        assert (OpsOf(calls, init) + [calls[id].op])[..|OpsOf(calls, init)|] == OpsOf(calls, init);
      } else {
        assert OpsOf(calls, init) + [] == OpsOf(calls, init);
      }
    }
  }

  lemma {:induction false} OpsFromCalls(locs: set<Location>, calls: seq<Call>, items: seq<Item>)
    requires forall id :: 0 <= id < |calls| ==> calls[id].op.loc in locs && OwnNames(calls[id].op)
    ensures RefreshesOf(locs, OpsOf(calls, items))
  {
    if items != [] {
      OpsFromCalls(locs, calls, items[..|items| - 1]);
    }
  }

  ghost predicate NoOtherWrites(events: seq<Event>) {
    forall i :: 0 <= i < |events| ==> !events[i].OtherWrite?
  }

  ghost predicate OnlyCalls(s: State) {
    forall at :: 0 <= at < |s.history| ==> !s.history[at].author.Outside?
  }

  lemma {:induction false} RunOnlyCalls(data: Option<Data>, events: seq<Event>)
    requires NoOtherWrites(events)
    ensures OnlyCalls(Run(data, events))
  {
    if events != [] {
      RunOnlyCalls(data, events[..|events| - 1]);
      StepOnlyCalls(Run(data, events[..|events| - 1]), events[|events| - 1]);
    }
  }

  lemma StepOnlyCalls(s: State, e: Event)
    requires OnlyCalls(s) && !e.OtherWrite?
    ensures OnlyCalls(Step(s, e))
  {
  }

  lemma {:induction false} ReadersAreCalls(s: State, at: nat, n: nat)
    requires n <= |s.calls|
    ensures NoOthers(Readers(s, at, n))
  {
    if n > 0 {
      ReadersAreCalls(s, at, n - 1);
    }
  }

  lemma {:induction false} OrderOfCalls(s: State, n: nat)
    requires OnlyCalls(s) && n <= |s.history|
    ensures NoOthers(SerialOrder(s, n))
  {
    if n > 0 {
      OrderOfCalls(s, n - 1);
      ReadersAreCalls(s, n - 1, |s.calls|);
    }
  }

  /**
   Any number of interleaved calls for services that keep apart: the list holds what no service claims, in its old
   order, and for each service the entries of the last of its calls in the serial order.
   */
  lemma InterleavedContents(locs: set<Location>, data: Option<Data>, events: seq<Event>)
    requires Separate(locs) && ListOf(data).Some? && NoOtherWrites(events)
    requires var s := Run(data, events);
      forall id :: 0 <= id < |s.calls| ==> s.calls[id].op.loc in locs && OwnNames(s.calls[id].op)
    ensures var s := Run(data, events); var ops := OpsOf(s.calls, SerialOrder(s, |s.history|));
      ListOf(Current(s)) == Some(Filter(Unclaimed(ops), ListOf(data).value) + LatestOfAll(ops))
  {
    hide Run, SerialOrder, Replay;
    var s := Run(data, events);
    var order := SerialOrder(s, |s.history|);
    Serialisable(data, events);
    RunOnlyCalls(data, events);
    OrderOfCalls(s, |s.history|);
    ReplayIsFold(s.calls, data, order);
    OpsFromCalls(locs, s.calls, order);
    ListContents(locs, ListOf(data).value, OpsOf(s.calls, order));
  }

  /**
   One service of them: its part of the list is what its last call in the serial order wanted.
   */
  lemma InterleavedService(locs: set<Location>, data: Option<Data>, events: seq<Event>, loc: Location)
    requires Separate(locs) && ListOf(data).Some? && NoOtherWrites(events)
    requires var s := Run(data, events);
      && (forall id :: 0 <= id < |s.calls| ==> s.calls[id].op.loc in locs && OwnNames(s.calls[id].op))
      && Mentions(OpsOf(s.calls, SerialOrder(s, |s.history|)), loc)
    ensures var s := Run(data, events);
      && ListOf(Current(s)).Some?
      && Filter(ClaimedBy(loc), ListOf(Current(s)).value) == Latest(OpsOf(s.calls, SerialOrder(s, |s.history|)), loc)
  {
    hide Run, SerialOrder, Replay;
    var s := Run(data, events);
    var order := SerialOrder(s, |s.history|);
    Serialisable(data, events);
    RunOnlyCalls(data, events);
    OrderOfCalls(s, |s.history|);
    ReplayIsFold(s.calls, data, order);
    OpsFromCalls(locs, s.calls, order);
    ServiceContents(locs, ListOf(data).value, OpsOf(s.calls, order), loc);
  }
}
