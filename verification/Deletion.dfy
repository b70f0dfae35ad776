/**
 Deletions among interleaved calls: when a reconciled deletion keeps the entries of a service away for good. Limiters
 and the calls on the shared ConfigMap are parts of one state; a refresh starts while the limiter exists, a deletion is
 reconciled while it does not.
 */
module Deletion {
  import opened Seqs
  import opened Limiter
  import opened Descriptors
  import opened RateLimits
  import opened RlsConfigMap
  import opened RlsContents

  datatype World = World(limiters: set<Location>, shared: State)

  /**
   What happens to limiters, the start of a refresh and of a reconciled deletion, and the steps of calls under way.
   */
  datatype Happening =
    | Created(loc: Location)
    | Deleted(loc: Location)
    | RefreshStarts(op: Op)
    | DeletionStarts(loc: Location)
    | Progress(e: Event)

  function Happen(w: World, h: Happening): World {
    match h
    case Created(loc) => w.(limiters := w.limiters + {loc})
    case Deleted(loc) => w.(limiters := w.limiters - {loc})
    case RefreshStarts(op) => if op.loc in w.limiters then w.(shared := Step(w.shared, Begin(op))) else w
    case DeletionStarts(loc) => if loc in w.limiters then w else w.(shared := Step(w.shared, Begin(Op(loc, []))))
    case Progress(e) => if e.Begin? then w else w.(shared := Step(w.shared, e))
  }

  function HappenAll(w: World, hs: seq<Happening>): World {
    if hs == [] then w else Happen(HappenAll(w, hs[..|hs| - 1]), hs[|hs| - 1])
  }

  /** The list, if it can be read, holds no entry that the service claims. */
  predicate IsFree(s: State, loc: Location)
    requires |s.history| > 0
  {
    ListOf(Current(s)).None? || Filter(ClaimedBy(loc), ListOf(Current(s)).value) == []
  }

  /**
   A call that can still put entries of the service into the list: no write came after what it has read, if anything.
   */
  predicate IsThreat(s: State, call: Call, loc: Location) {
    && call.op.loc == loc && call.op.desc != []
    && match call.phase
       case Started => true
       case Got(at) => at == |s.history| - 1
       case Ready(at, _) => at == |s.history| - 1
       case Done(_) => false
  }

  predicate Threatened(s: State, loc: Location) {
    exists id :: 0 <= id < |s.calls| && IsThreat(s, s.calls[id], loc)
  }

  ghost predicate OwnCalls(locs: set<Location>, s: State) {
    forall id :: 0 <= id < |s.calls| ==> s.calls[id].op.loc in locs && OwnNames(s.calls[id].op)
  }

  /** A world whose calls are those of services that keep apart. */
  ghost predicate IsOrderly(locs: set<Location>, w: World) {
    Inv(w.shared) && Separate(locs) && OwnCalls(locs, w.shared)
  }

  /** Refreshes are of some services and carry entries of their own, and no one else writes the ConfigMap. */
  ghost predicate IsOwn(locs: set<Location>, h: Happening) {
    match h
    case Created(_) => true
    case Deleted(_) => true
    case RefreshStarts(op) => op.loc in locs && OwnNames(op)
    case DeletionStarts(other) => other in locs && PlainLocation(other)
    case Progress(e) => !e.OtherWrite?
  }

  /** And the limiter is not created again. */
  ghost predicate IsAllowed(locs: set<Location>, loc: Location, h: Happening) {
    IsOwn(locs, h) && h != Created(loc)
  }

  ghost predicate AreAllowed(locs: set<Location>, loc: Location, hs: seq<Happening>) {
    forall i :: 0 <= i < |hs| ==> IsAllowed(locs, loc, hs[i])
  }

  /** However it goes on, no entry of the service comes back before its limiter is created again. */
  ghost predicate StaysFree(locs: set<Location>, w: World, loc: Location) {
    forall hs :: AreAllowed(locs, loc, hs) ==>
      var after := HappenAll(w, hs).shared;
      |after.history| > 0 && IsFree(after, loc)
  }

  /** Nothing of the service is in the list, and nothing can put something there. */
  ghost predicate IsCalm(w: World, loc: Location) {
    && loc !in w.limiters
    && |w.shared.history| > 0
    && (ListOf(Current(w.shared)).None? || (IsFree(w.shared, loc) && !Threatened(w.shared, loc)))
  }

  /** A list that cannot be read is never written. */
  lemma UnreadableStays(s: State, id: nat)
    requires Inv(s) && ListOf(Current(s)).None?
    ensures Step(s, Update(id)).history == s.history
  {
    if id < |s.calls| && s.calls[id].phase.Ready? {
      assert CallOk(s, id);
    }
  }

  /** A write by a call that is no threat leaves the list free. */
  lemma WriteKeepsFree(locs: set<Location>, s: State, id: nat, loc: Location)
    requires Inv(s) && Separate(locs) && OwnCalls(locs, s) && loc in locs && PlainLocation(loc)
    requires ListOf(Current(s)).Some? && IsFree(s, loc) && !Threatened(s, loc)
    ensures IsFree(Step(s, Update(id)), loc)
  {
    var t := Step(s, Update(id));
    if t.history != s.history {
      var op, list := s.calls[id].op, ListOf(Current(s)).value;
      assert CallOk(s, id);
      assert !IsThreat(s, s.calls[id], loc);
      assert OwnNames(op);
      OwnEntries(op, loc);
      FilterAppend(ClaimedBy(loc), Filter(NotClaimedBy(op.loc), list), op.desc);
      FiltersCommute(ClaimedBy(loc), NotClaimedBy(op.loc), list);
      assert ListOf(Current(t)) == Some(NewList(list, op));
    }
  }

  lemma StepOrderly(locs: set<Location>, s: State, e: Event)
    requires Inv(s) && OwnCalls(locs, s)
    requires e.Begin? ==> e.op.loc in locs && OwnNames(e.op)
    ensures Inv(Step(s, e)) && OwnCalls(locs, Step(s, e))
  {
    hide OwnNames, Decide;
    StepKeepsInv(s, e);
  }

  /** A deletion wants nothing, so its entries are its own. */
  lemma NothingIsOwn(loc: Location)
    requires PlainLocation(loc)
    ensures OwnNames(Op(loc, []))
  {
  }

  lemma HappenOrderly(locs: set<Location>, w: World, h: Happening)
    requires IsOrderly(locs, w) && IsOwn(locs, h)
    ensures IsOrderly(locs, Happen(w, h))
  {
    hide Inv, Step, OwnNames, Separate;
    match h {
      case RefreshStarts(op) => StepOrderly(locs, w.shared, Begin(op));
      case DeletionStarts(other) =>
        NothingIsOwn(other);
        StepOrderly(locs, w.shared, Begin(Op(other, [])));
      case Progress(e) =>
        if !e.Begin? {
          StepOrderly(locs, w.shared, e);
        }
      case _ =>
    }
  }

  /** Every world that a run reaches is orderly. */
  lemma {:induction false} RunOrderly(locs: set<Location>, limiters: set<Location>, data: Option<Data>,
      hs: seq<Happening>)
    requires Separate(locs) && forall i :: 0 <= i < |hs| ==> IsOwn(locs, hs[i])
    ensures IsOrderly(locs, HappenAll(World(limiters, Start(data)), hs))
  {
    hide Separate, Happen, IsOwn;
    if hs != [] {
      var init := hs[..|hs| - 1];
      RunOrderly(locs, limiters, data, init);
      HappenOrderly(locs, HappenAll(World(limiters, Start(data)), init), hs[|hs| - 1]);
    }
  }

  /** Only an update moves the history on, if no one else writes. */
  lemma StepHistory(s: State, e: Event)
    requires !e.OtherWrite?
    ensures !e.Update? ==> Step(s, e).history == s.history
  {
  }

  /** No step makes a threat of what was none, except the start of a refresh of the service. */
  lemma StepThreat(s: State, e: Event, loc: Location)
    requires Inv(s) && !e.OtherWrite? && !Threatened(s, loc)
    requires e.Begin? ==> e.op.loc != loc || e.op.desc == []
    ensures !Threatened(Step(s, e), loc)
  {
    hide Decide;
    var t := Step(s, e);
    forall id | 0 <= id < |t.calls|
      ensures !IsThreat(t, t.calls[id], loc)
    {
      if id < |s.calls| {
        assert CallOk(s, id) && !IsThreat(s, s.calls[id], loc);
      }
    }
  }

  lemma StepCalm(locs: set<Location>, w: World, loc: Location, e: Event)
    requires IsOrderly(locs, w) && loc in locs && PlainLocation(loc) && IsCalm(w, loc)
    requires !e.OtherWrite? && (e.Begin? ==> e.op.loc != loc || e.op.desc == [])
    ensures IsCalm(w.(shared := Step(w.shared, e)), loc)
  {
    hide Inv, Separate, OwnCalls, Step, Threatened, Filter;
    var s := w.shared;
    StepHistory(s, e);
    assert |s.history| > 0;
    if ListOf(Current(s)).None? {
      if e.Update? {
        UnreadableStays(s, e.id);
      }
    } else {
      StepThreat(s, e, loc);
      if e.Update? {
        WriteKeepsFree(locs, s, e.id, loc);
        StepKeepsInv(s, e);
      }
    }
  }

  lemma HappenCalm(locs: set<Location>, w: World, loc: Location, h: Happening)
    requires IsOrderly(locs, w) && loc in locs && PlainLocation(loc) && IsCalm(w, loc) && IsAllowed(locs, loc, h)
    ensures IsCalm(Happen(w, h), loc)
  {
    hide IsOrderly, Step, IsFree, Threatened, OwnNames;
    match h {
      case RefreshStarts(op) =>
        if op.loc in w.limiters {
          StepCalm(locs, w, loc, Begin(op));
        }
      case DeletionStarts(other) => StepCalm(locs, w, loc, Begin(Op(other, [])));
      case Progress(e) =>
        if !e.Begin? {
          StepCalm(locs, w, loc, e);
        }
      case _ =>
    }
  }

  lemma {:induction false} RunCalm(locs: set<Location>, w: World, loc: Location, hs: seq<Happening>)
    requires IsOrderly(locs, w) && loc in locs && PlainLocation(loc) && IsCalm(w, loc) && AreAllowed(locs, loc, hs)
    ensures IsOrderly(locs, HappenAll(w, hs)) && IsCalm(HappenAll(w, hs), loc)
  {
    hide IsOrderly, IsCalm, Happen, IsOwn;
    if hs != [] {
      var init, last := hs[..|hs| - 1], hs[|hs| - 1];
      RunCalm(locs, w, loc, init);
      HappenOrderly(locs, HappenAll(w, init), last);
      HappenCalm(locs, HappenAll(w, init), loc, last);
    }
  }

  // ----- A threat can strike -----

  /** Entries to add to a free list make a difference, so they are written. */
  lemma WritesEntries(s: State, op: Op)
    requires |s.history| > 0 && ListOf(Current(s)).Some? && IsFree(s, op.loc) && OwnNames(op) && op.desc != []
    ensures var new_ := ConstructConfigMap(NewList(ListOf(Current(s)).value, op));
      && Decide(Current(s), op) == Write(new_)
      && Filter(ClaimedBy(op.loc), ListOf(Some(new_)).value) == op.desc
  {
    var list := ListOf(Current(s)).value;
    OwnEntries(op, op.loc);
    ClaimedNotClaimed(op.loc, list);
    FilterAppend(ClaimedBy(op.loc), Filter(NotClaimedBy(op.loc), list), op.desc);
    assert [] + op.desc == op.desc;
    assert Filter(ClaimedBy(op.loc), NewList(list, op)) == op.desc;
    assert NewList(list, op) != list;
    var config, found := Config(DOMAIN, NewList(list, op)), Current(s).value;
    assert ConstructConfigMap(NewList(list, op))[CONFIG_MAP_CONFIG] == Marshal(config);
    assert found[CONFIG_MAP_CONFIG].config.descriptors == list;
  }

  lemma ReadyStrikes(s: State, id: nat)
    requires Inv(s) && id < |s.calls| && IsThreat(s, s.calls[id], s.calls[id].op.loc) && s.calls[id].phase.Ready?
    requires ListOf(Current(s)).Some? && IsFree(s, s.calls[id].op.loc) && OwnNames(s.calls[id].op)
    ensures var t := Step(s, RlsConfigMap.Update(id)); |t.history| > 0 && !IsFree(t, s.calls[id].op.loc)
  {
    hide OwnNames, Filter, NewList;
    var op, t := s.calls[id].op, Step(s, RlsConfigMap.Update(id));
    assert CallOk(s, id);
    WritesEntries(s, op);
    assert Current(t) == Some(ConstructConfigMap(NewList(ListOf(Current(s)).value, op)));
  }

  lemma GotStrikes(s: State, id: nat)
    requires Inv(s) && id < |s.calls| && IsThreat(s, s.calls[id], s.calls[id].op.loc) && s.calls[id].phase.Got?
    requires ListOf(Current(s)).Some? && IsFree(s, s.calls[id].op.loc) && OwnNames(s.calls[id].op)
    ensures var t := Step(Step(s, Compute(id)), RlsConfigMap.Update(id));
      |t.history| > 0 && !IsFree(t, s.calls[id].op.loc)
  {
    hide OwnNames, Filter, Decide, ConstructConfigMap, NewList, Inv;
    var op, t := s.calls[id].op, Step(s, Compute(id));
    WritesEntries(s, op);
    assert t.calls[id].op == op && t.calls[id].phase.Ready? && t.history == s.history;
    StepKeepsInv(s, Compute(id));
    ReadyStrikes(t, id);
  }

  lemma StartedStrikes(s: State, id: nat)
    requires Inv(s) && id < |s.calls| && IsThreat(s, s.calls[id], s.calls[id].op.loc) && s.calls[id].phase.Started?
    requires ListOf(Current(s)).Some? && IsFree(s, s.calls[id].op.loc) && OwnNames(s.calls[id].op)
    ensures var t := Step(Step(Step(s, GetOk(id, |s.history| - 1)), Compute(id)), RlsConfigMap.Update(id));
      |t.history| > 0 && !IsFree(t, s.calls[id].op.loc)
  {
    hide OwnNames, Filter, Decide;
    var t := Step(s, GetOk(id, |s.history| - 1));
    StepKeepsInv(s, GetOk(id, |s.history| - 1));
    GotStrikes(t, id);
  }

  lemma RunNext(w: World, hs: seq<Happening>, h: Happening)
    ensures HappenAll(w, hs + [h]) == Happen(HappenAll(w, hs), h)
  {
    assert (hs + [h])[..|hs|] == hs;
  }

  lemma RunNone(w: World)
    ensures HappenAll(w, []) == w
  {
  }

  /** A call that can still commit, left alone, puts its entries into the list. */
  lemma ThreatStrikes(locs: set<Location>, w: World, loc: Location, id: nat)
    requires IsOrderly(locs, w) && id < |w.shared.calls| && IsThreat(w.shared, w.shared.calls[id], loc)
    requires ListOf(Current(w.shared)).Some? && IsFree(w.shared, loc)
    ensures !StaysFree(locs, w, loc)
  {
    hide Step, IsFree, HappenAll, OwnNames, Filter;
    var s, last := w.shared, Progress(RlsConfigMap.Update(id));
    RunNone(w);
    var hs: seq<Happening>;
    match s.calls[id].phase {
      case Started =>
        var read, compute := Progress(GetOk(id, |s.history| - 1)), Progress(Compute(id));
        hs := [] + [read] + [compute] + [last];
        StartedStrikes(s, id);
        RunNext(w, [], read);
        RunNext(w, [] + [read], compute);
        RunNext(w, [] + [read] + [compute], last);
      case Got(_) =>
        hs := [] + [Progress(Compute(id))] + [last];
        GotStrikes(s, id);
        RunNext(w, [], Progress(Compute(id)));
        RunNext(w, [] + [Progress(Compute(id))], last);
      case Ready(_, _) =>
        hs := [] + [last];
        ReadyStrikes(s, id);
        RunNext(w, [], last);
    }
    assert AreAllowed(locs, loc, hs);
  }

  /**
   Once a service without a limiter has no entries in the list, none come back before the limiter is created again if
   and only if no call that wants entries for it has yet to read the list, or to write over the version it has read.
   */
  lemma StaysFreeExactly(locs: set<Location>, w: World, loc: Location)
    requires IsOrderly(locs, w) && loc in locs && PlainLocation(loc)
    requires loc !in w.limiters && IsFree(w.shared, loc)
    ensures StaysFree(locs, w, loc) <==> ListOf(Current(w.shared)).None? || !Threatened(w.shared, loc)
  {
    hide Separate, OwnCalls, CallOk, VersionOk, Filter, HappenAll, AreAllowed, IsThreat;
    if ListOf(Current(w.shared)).None? || !Threatened(w.shared, loc) {
      forall hs | AreAllowed(locs, loc, hs)
        ensures |HappenAll(w, hs).shared.history| > 0 && IsFree(HappenAll(w, hs).shared, loc)
      {
        RunCalm(locs, w, loc, hs);
      }
    } else {
      var id :| 0 <= id < |w.shared.calls| && IsThreat(w.shared, w.shared.calls[id], loc);
      ThreatStrikes(locs, w, loc, id);
    }
  }

  // ----- When a deletion has been reconciled -----

  /** The write of a deletion leaves the list free. */
  lemma DeletionFrees(s: State, id: nat)
    requires Inv(s) && id < |s.calls| && s.calls[id].op.desc == []
    requires s.calls[id].phase.Ready? && s.calls[id].phase.at == |s.history| - 1
    ensures var t := Step(s, RlsConfigMap.Update(id));
      |t.history| > 0 && ListOf(Current(t)).Some? && IsFree(t, s.calls[id].op.loc)
  {
    var op, t := s.calls[id].op, Step(s, RlsConfigMap.Update(id));
    assert CallOk(s, id);
    var list := ListOf(Current(s)).value;
    ClaimedNotClaimed(op.loc, list);
    FilterAppend(ClaimedBy(op.loc), Filter(NotClaimedBy(op.loc), list), []);
    assert ListOf(Current(t)) == Some(NewList(list, op));
  }

  /** A refresh of the service, with entries, that has started and has yet to read the list. */
  predicate IsUnread(call: Call, loc: Location) {
    call.op.loc == loc && call.op.desc != [] && call.phase.Started?
  }

  /** After a write, only calls that have yet to read the list are threats. */
  lemma OnlyUnread(s: State, id: nat, loc: Location)
    requires Inv(s) && id < |s.calls| && s.calls[id].phase.Ready? && s.calls[id].phase.at == |s.history| - 1
    ensures Threatened(Step(s, RlsConfigMap.Update(id)), loc) <==>
      exists k :: 0 <= k < |s.calls| && IsUnread(s.calls[k], loc)
  {
    var t := Step(s, RlsConfigMap.Update(id));
    forall k | 0 <= k < |s.calls|
      ensures IsThreat(t, t.calls[k], loc) <==> IsUnread(s.calls[k], loc)
    {
      assert CallOk(s, k);
    }
  }

  /**
   A deletion that writes keeps the service's entries away, until the limiter is created again, if and only if at the
   moment of the write no refresh of the service has started that has yet to read the list.
   */
  lemma WrittenDeletionExactly(locs: set<Location>, w: World, id: nat, loc: Location)
    requires IsOrderly(locs, w) && loc in locs && PlainLocation(loc) && loc !in w.limiters
    requires id < |w.shared.calls| && w.shared.calls[id].op == Op(loc, [])
    requires w.shared.calls[id].phase.Ready? && w.shared.calls[id].phase.at == |w.shared.history| - 1
    ensures StaysFree(locs, Happen(w, Progress(RlsConfigMap.Update(id))), loc) <==>
      !exists k :: 0 <= k < |w.shared.calls| && IsUnread(w.shared.calls[k], loc)
  {
    hide Step, IsFree, Threatened, StaysFree, OwnNames, Filter;
    HappenOrderly(locs, w, Progress(RlsConfigMap.Update(id)));
    DeletionFrees(w.shared, id);
    OnlyUnread(w.shared, id, loc);
    StaysFreeExactly(locs, Happen(w, Progress(RlsConfigMap.Update(id))), loc);
  }

  /** A refresh that saw the limiter, and a deletion that is reconciled before the refresh has read the list. */
  function Overtaken(loc: Location, e: RlsEntry): seq<Happening> {
    [RefreshStarts(Op(loc, [e])), Deleted(loc), DeletionStarts(loc), Progress(GetOk(1, 0)), Progress(Compute(1)),
     Progress(GetOk(0, 0)), Progress(Compute(0)), Progress(RlsConfigMap.Update(0))]
  }

  /** Up to the point at which the deletion has found nothing to remove. */
  lemma DeletionFindsNothing(loc: Location, e: RlsEntry)
    ensures var data := Some(ConstructConfigMap([]));
      HappenAll(World({loc}, Start(data)), Overtaken(loc, e)[..5]) ==
        World({}, State([Version(data, Initial)],
          [Call(Op(loc, [e]), Started), Call(Op(loc, []), Done(Skipped(0)))]))
  {
    hide HappenAll, NewList, ConstructConfigMap, Decide;
    var data := Some(ConstructConfigMap([]));
    var w, hs := World({loc}, Start(data)), Overtaken(loc, e);
    RunNone(w);
    NextOf(w, hs, 0);
    NextOf(w, hs, 1);
    NextOf(w, hs, 2);
    assert HappenAll(w, hs[..3]) ==
      World({}, State([Version(data, Initial)], [Call(Op(loc, [e]), Started), Call(Op(loc, []), Started)]));
    DecideOnEmpty(loc, e);
    NextOf(w, hs, 3);
    NextOf(w, hs, 4);
  }

  /** And from there to the end. */
  lemma RefreshCommits(loc: Location, e: RlsEntry)
    ensures var data, written := Some(ConstructConfigMap([])), Some(ConstructConfigMap([e]));
      HappenAll(World({loc}, Start(data)), Overtaken(loc, e)) ==
        World({}, State([Version(data, Initial), Version(written, ByCall(0))],
          [Call(Op(loc, [e]), Done(Committed(1))), Call(Op(loc, []), Done(Skipped(0)))]))
  {
    hide HappenAll, NewList, ConstructConfigMap, Decide;
    var data := Some(ConstructConfigMap([]));
    var w, hs := World({loc}, Start(data)), Overtaken(loc, e);
    DeletionFindsNothing(loc, e);
    DecideOnEmpty(loc, e);
    NextOf(w, hs, 5);
    NextOf(w, hs, 6);
    NextOf(w, hs, 7);
    assert hs[..8] == hs;
  }

  /**
   The run in which entries outlive their limiter: the limiter is gone, its deletion has been reconciled, and the entry
   of the refresh that was overtaken is in the list.
   */
  lemma OvertakenRefreshSurvivesDeletion(loc: Location, e: RlsEntry)
    requires PlainLocation(loc) && NamedBy(loc, e)
    ensures var after := HappenAll(World({loc}, Start(Some(ConstructConfigMap([])))), Overtaken(loc, e));
      && loc !in after.limiters
      && after.shared.calls == [Call(Op(loc, [e]), Done(Committed(1))), Call(Op(loc, []), Done(Skipped(0)))]
      && |after.shared.history| == 2 && ListOf(Current(after.shared)) == Some([e])
      && Claims(loc, e.value)
  {
    hide HappenAll, ConstructConfigMap, Claims, Name;
    RefreshCommits(loc, e);
    ListWritten([e]);
    OwnIsClaimed(loc, e);
  }

  lemma NextOf(w: World, hs: seq<Happening>, i: nat)
    requires i < |hs|
    ensures hs[..0] == [] && HappenAll(w, hs[..i + 1]) == Happen(HappenAll(w, hs[..i]), hs[i])
  {
    assert hs[..i + 1][..i] == hs[..i];
  }

  lemma ListWritten(list: seq<RlsEntry>)
    ensures ListOf(Some(ConstructConfigMap(list))) == Some(list)
  {
  }

  lemma OwnIsClaimed(loc: Location, e: RlsEntry)
    requires PlainLocation(loc) && NamedBy(loc, e)
    ensures Claims(loc, e.value)
  {
    hide Name, Claims;
    var id: nat :| e.value == Name(loc.name, loc.namespace, id);
    ClaimsOwn(loc, id);
  }

  lemma DecideOnEmpty(loc: Location, e: RlsEntry)
    ensures var data := Some(ConstructConfigMap([]));
      Decide(data, Op(loc, [])) == Skip && Decide(data, Op(loc, [e])) == Write(ConstructConfigMap([e]))
  {
    assert NewList([], Op(loc, [])) == [] && NewList([], Op(loc, [e])) == [e];
    var one, none := Config(DOMAIN, [e]), Config(DOMAIN, []);
    assert one.descriptors != none.descriptors;
    assert ConstructConfigMap([e])[CONFIG_MAP_CONFIG] == Marshal(one);
    assert ConstructConfigMap([])[CONFIG_MAP_CONFIG] == Marshal(none);
  }
}
