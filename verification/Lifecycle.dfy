/**
 Entries of a service over the life of its SmartLimiter: refreshed while it exists, gone once its deletion is
 reconciled.
 */
module Lifecycle {
  import opened Seqs
  import opened Limiter
  import opened Descriptors
  import opened RateLimits
  import opened RlsConfigMap
  import opened RlsContents

  /** The limiters that exist and the shared list. */
  datatype Cluster = Cluster(limiters: set<Location>, list: seq<RlsEntry>)

  /**
   Metric is a refresh by the metric loop with the entries it generates; Reconciled is the reconciler's view of a
   limiter.
   */
  datatype Happening =
    | Created(loc: Location)
    | Deleted(loc: Location)
    | Reconciled(loc: Location)
    | Metric(loc: Location, desc: seq<RlsEntry>)

  /** What a happening does to the list: a refresh needs the object, a reconciled deletion needs its absence. */
  function EffectOf(c: Cluster, h: Happening): Option<Op> {
    match h
    case Reconciled(loc) => if loc in c.limiters then None else Some(Op(loc, []))
    case Metric(loc, desc) => if loc in c.limiters then Some(Op(loc, desc)) else None
    case _ => None
  }

  function Happen(c: Cluster, h: Happening): Cluster {
    var list := if EffectOf(c, h).Some? then NewList(c.list, EffectOf(c, h).value) else c.list;
    var limiters := match h
      case Created(loc) => c.limiters + {loc}
      case Deleted(loc) => c.limiters - {loc}
      case _ => c.limiters;
    Cluster(limiters, list)
  }

  function HappenAll(c: Cluster, hs: seq<Happening>): Cluster {
    if hs == [] then c else Happen(HappenAll(c, hs[..|hs| - 1]), hs[|hs| - 1])
  }

  /** The refreshes and deletions of a run that reach the list. */
  function Effects(c: Cluster, hs: seq<Happening>): seq<Op> {
    if hs == [] then
      []
    else
      var init, last := hs[..|hs| - 1], hs[|hs| - 1];
      var effect := EffectOf(HappenAll(c, init), last);
      Effects(c, init) + if effect.Some? then [effect.value] else []
  }

  /** Happenings to some services, whose refreshes carry entries of their own. */
  ghost predicate HappeningsOf(locs: set<Location>, hs: seq<Happening>) {
    forall i :: 0 <= i < |hs| ==>
      hs[i].loc in locs && PlainLocation(hs[i].loc) && (hs[i].Metric? ==> OwnNames(Op(hs[i].loc, hs[i].desc)))
  }

  lemma {:induction false} RunIsFold(c: Cluster, hs: seq<Happening>)
    ensures HappenAll(c, hs).list == Fold(c.list, Effects(c, hs))
  {
    if hs != [] {
      var init := hs[..|hs| - 1];
      RunIsFold(c, init);
      var effect := EffectOf(HappenAll(c, init), hs[|hs| - 1]);
      if effect.Some? {
        assert (Effects(c, init) + [effect.value])[..|Effects(c, init)|] == Effects(c, init);
      } else {
        assert Effects(c, init) + [] == Effects(c, init);
      }
    }
  }

  lemma {:induction false} EffectsAreRefreshes(locs: set<Location>, c: Cluster, hs: seq<Happening>)
    requires HappeningsOf(locs, hs)
    ensures RefreshesOf(locs, Effects(c, hs))
  {
    if hs != [] {
      EffectsAreRefreshes(locs, c, hs[..|hs| - 1]);
    }
  }

  /**
   Over every run, a service that has reached the list has there what it wanted last: its latest entries, or none after
   a deletion.
   */
  lemma WholeRun(locs: set<Location>, c: Cluster, hs: seq<Happening>, loc: Location)
    requires Separate(locs) && HappeningsOf(locs, hs)
    requires Mentions(Effects(c, hs), loc)
    ensures Filter(ClaimedBy(loc), HappenAll(c, hs).list) == Latest(Effects(c, hs), loc)
  {
    RunIsFold(c, hs);
    EffectsAreRefreshes(locs, c, hs);
    ServiceContents(locs, c.list, Effects(c, hs), loc);
  }

  /** A reconciled deletion leaves no entry of the service, whatever was there. */
  lemma DeletionRemoves(c: Cluster, loc: Location)
    requires loc !in c.limiters
    ensures Filter(ClaimedBy(loc), Happen(c, Reconciled(loc)).list) == []
  {
    ClaimedNotClaimed(loc, c.list);
    FilterAppend(ClaimedBy(loc), Filter(NotClaimedBy(loc), c.list), []);
  }

  /** And none returns before the limiter is created again. */
  lemma {:induction false} DeletedStaysGone(locs: set<Location>, c: Cluster, hs: seq<Happening>, loc: Location)
    requires Separate(locs) && HappeningsOf(locs, hs) && loc in locs && PlainLocation(loc)
    requires loc !in c.limiters && Filter(ClaimedBy(loc), c.list) == []
    requires forall i :: 0 <= i < |hs| ==> hs[i] != Created(loc)
    ensures loc !in HappenAll(c, hs).limiters && Filter(ClaimedBy(loc), HappenAll(c, hs).list) == []
  {
    if hs != [] {
      var init, last := hs[..|hs| - 1], hs[|hs| - 1];
      var before := HappenAll(c, init);
      DeletedStaysGone(locs, c, init, loc);
      var effect := EffectOf(before, last);
      if effect.Some? {
        var op := effect.value;
        OwnEntries(op, loc);
        FilterAppend(ClaimedBy(loc), Filter(NotClaimedBy(op.loc), before.list), op.desc);
        FiltersCommute(ClaimedBy(loc), NotClaimedBy(op.loc), before.list);
      }
    }
  }

  /** The happening does not touch the entries of the service: neither a refresh of it nor the end of its limiter. */
  predicate Spares(h: Happening, loc: Location) {
    h.loc != loc || h.Created? || h.Reconciled?
  }

  /** As long as a limiter exists, what its latest refresh put into the list stays there. */
  lemma {:induction false} LiveEntriesStay(locs: set<Location>, c: Cluster, loc: Location, desc: seq<RlsEntry>,
      hs: seq<Happening>)
    requires Separate(locs) && HappeningsOf(locs, hs) && loc in locs && OwnNames(Op(loc, desc)) && loc in c.limiters
    requires forall i :: 0 <= i < |hs| ==> Spares(hs[i], loc)
    ensures var after := HappenAll(Happen(c, Metric(loc, desc)), hs);
      loc in after.limiters && Filter(ClaimedBy(loc), after.list) == desc
  {
    var first := Happen(c, Metric(loc, desc));
    OwnEntries(Op(loc, desc), loc);
    if hs == [] {
      ClaimedNotClaimed(loc, c.list);
      FilterAppend(ClaimedBy(loc), Filter(NotClaimedBy(loc), c.list), desc);
      assert [] + desc == desc;
    } else {
      var init, last := hs[..|hs| - 1], hs[|hs| - 1];
      var before := HappenAll(first, init);
      LiveEntriesStay(locs, c, loc, desc, init);
      var effect := EffectOf(before, last);
      if effect.Some? {
        var op := effect.value;
        OwnEntries(op, loc);
        FilterAppend(ClaimedBy(loc), Filter(NotClaimedBy(op.loc), before.list), op.desc);
        FiltersCommute(ClaimedBy(loc), NotClaimedBy(op.loc), before.list);
        OwnEntries(Op(loc, desc), op.loc);
        assert desc + [] == desc;
      }
    }
  }
}
