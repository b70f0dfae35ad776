/**
 The registry of member clusters against the secrets it is to follow: the informer's index of secrets, the
 notifications that are still to be delivered, the queue, and the worker between the look-up of a secret and the end of
 its processing.
 */
module Secrets {
  import opened Limiter
  import opened Multicluster
  import Q = WorkQueue

  /** What the worker got for the item that it processes: None is a secret that is gone. */
  datatype Lookup = Failed | Saw(data: Option<SecretData>)

  datatype System = System(
    index: map<string, SecretData>,
    undelivered: multiset<string>,
    queue: Q.Queue,
    looked: Option<Lookup>,
    cs: map<string, string>,
    gaveUp: set<string>)

  const NO_SECRETS := System(map[], multiset{}, Q.EMPTY_QUEUE, None, map[], {})

  /**
   The index changes before the handlers are notified, and a change of a secret that stays notifies no one. Worked is
   the end of a processing, with what was looked up some time before.
   */
  datatype Happening =
    | SecretAdded(name: string, data: SecretData)
    | SecretChanged(name: string, data: SecretData)
    | SecretDeleted(name: string)
    | Delivered(name: string)
    | TimerFired(name: string)
    | ItemTaken
    | LookedUp(fails: bool)
    | Worked

  predicate CanHappen(s: System, h: Happening) {
    match h
    case SecretAdded(name, _) => name !in s.index
    case SecretChanged(name, _) => name in s.index
    case SecretDeleted(name) => name in s.index
    case Delivered(name) => name in s.undelivered
    case TimerFired(name) => name in s.queue.waiting
    case ItemTaken => s.queue.order != [] && s.queue.processing.None?
    case LookedUp(_) => s.queue.processing.Some? && s.looked.None?
    case Worked => s.queue.processing.Some? && s.looked.Some?
  }

  function IndexAt(s: System, name: string): Option<SecretData> {
    if name in s.index then Some(s.index[name]) else None
  }

  /** The registry after the processing of a name: unchanged by a failure, else the secret is added or deleted. */
  function AfterLookup(cs: map<string, string>, name: string, looked: Lookup): map<string, string> {
    match looked
    case Failed => cs
    case Saw(None) => WithoutOwner(cs, name)
    case Saw(Some(data)) => WithMembers(cs, name, data)
  }

  function Happen(s: System, h: Happening): System {
    if !CanHappen(s, h) then s
    else match h
      case SecretAdded(name, data) =>
        s.(index := s.index[name := data], undelivered := s.undelivered + multiset{name})
      case SecretChanged(name, data) => s.(index := s.index[name := data])
      case SecretDeleted(name) => s.(index := s.index - {name}, undelivered := s.undelivered + multiset{name})
      case Delivered(name) => s.(undelivered := s.undelivered - multiset{name}, queue := Q.Add(s.queue, name))
      case TimerFired(name) => s.(queue := Q.Fire(s.queue, name))
      case ItemTaken => s.(queue := Q.Get(s.queue))
      case LookedUp(fails) =>
        s.(looked := Some(if fails then Failed else Saw(IndexAt(s, s.queue.processing.value))))
      case Worked =>
        var name, fails := s.queue.processing.value, s.looked.value.Failed?;
        var gaveUp :=
          if !fails then s.gaveUp - {name}
          else if s.queue.requeues[name] < Q.MAX_RETRIES then s.gaveUp
          else s.gaveUp + {name};
        var cs := AfterLookup(s.cs, name, s.looked.value);
        s.(queue := Q.Finish(s.queue, fails), looked := None, cs := cs, gaveUp := gaveUp)
  }

  function HappenAll(hs: seq<Happening>): System {
    if hs == [] then NO_SECRETS else Happen(HappenAll(hs[..|hs| - 1]), hs[|hs| - 1])
  }

  /** The name will be processed again, or was given up. */
  predicate IsOutstanding(s: System, name: string) {
    name in s.undelivered || name in Q.Pending(s.queue) || name in s.gaveUp
  }

  /** What was looked up is still so, or the name is to be processed once more after this time. */
  ghost predicate LookupOk(s: System) {
    s.looked.Some? ==>
      && s.queue.processing.Some?
      && (s.looked.value.Saw? ==> IsCurrent(s, s.queue.processing.value, s.looked.value.data))
  }

  predicate IsCurrent(s: System, name: string, seen: Option<SecretData>) {
    (seen.Some? <==> name in s.index) || name in s.undelivered || name in s.queue.dirty
  }

  ghost predicate IsConsistent(s: System) {
    Q.Inv(s.queue) && LookupOk(s)
  }

  /** Every owner is a secret that exists, or one whose turn is still to come, or one that was given up. */
  ghost predicate NoOrphans(s: System) {
    forall cluster :: cluster in s.cs ==> s.cs[cluster] in s.index || IsOutstanding(s, s.cs[cluster])
  }

  lemma HappenConsistent(s: System, h: Happening)
    requires IsConsistent(s)
    ensures IsConsistent(Happen(s, h))
  {
    hide LookupOk, Q.Inv, Q.Finish, AfterLookup, Q.Fire, Q.Add, Q.Get;
    LookupStaysOk(s, h);
    if CanHappen(s, h) {
      match h {
        case Delivered(name) => Q.AddKeepsInv(s.queue, name);
        case TimerFired(name) => Q.TimerKeepsInv(s.queue, name);
        case ItemTaken => Q.GetKeepsInv(s.queue);
        case Worked => Q.FinishKeepsInv(s.queue, s.looked.value.Failed?);
        case _ =>
      }
    }
  }

  lemma LookupStaysOk(s: System, h: Happening)
    requires LookupOk(s)
    ensures LookupOk(Happen(s, h))
  {
    hide IsCurrent, Q.Finish, AfterLookup, Q.Fire, Q.Add, Q.Get, Q.Pending;
    if CanHappen(s, h) && s.looked.Some? && !h.Worked? && s.queue.processing.Some? {
      QueueSteps(s.queue);
      if s.looked.value.Saw? {
        StaysCurrent(s, h, s.queue.processing.value, s.looked.value.data);
      }
    } else if CanHappen(s, h) && h.LookedUp? {
      JustCurrent(s, s.queue.processing.value);
    }
  }

  lemma JustCurrent(s: System, name: string)
    ensures IsCurrent(s, name, IndexAt(s, name))
    ensures forall looked :: IsCurrent(s.(looked := looked), name, IndexAt(s, name))
  {
  }

  /** While an item is processed, what was looked up for it stays so or is followed by another processing. */
  lemma StaysCurrent(s: System, h: Happening, name: string, seen: Option<SecretData>)
    requires CanHappen(s, h) && !h.Worked? && s.queue.processing.Some? && IsCurrent(s, name, seen)
    ensures IsCurrent(Happen(s, h), name, seen)
  {
    hide Q.Fire, Q.Add, Q.Pending;
    match h {
      case Delivered(k) => AddedIsDirty(s.queue, k);
      case TimerFired(k) => FiredKeepsDirty(s.queue, k);
      case _ =>
    }
  }

  lemma QueueSteps(q: Q.Queue)
    ensures forall name :: Q.Add(q, name).processing == q.processing
    ensures forall name :: name in q.waiting ==> Q.Fire(q, name).processing == q.processing
    ensures forall fails :: q.processing.Some? ==> Q.Finish(q, fails).processing.None?
  {
  }

  lemma AddedIsDirty(q: Q.Queue, name: string)
    ensures Q.Add(q, name).processing == q.processing && Q.Add(q, name).dirty == q.dirty + {name}
  {
  }

  lemma FiredKeepsDirty(q: Q.Queue, name: string)
    requires name in q.waiting
    ensures Q.Fire(q, name).processing == q.processing && q.dirty <= Q.Fire(q, name).dirty
    ensures Q.Pending(Q.Fire(q, name)) == Q.Pending(q)
  {
  }

  lemma FinishedPending(q: Q.Queue, fails: bool, name: string)
    requires q.processing.Some? && name in Q.Pending(q)
    ensures name in Q.Pending(Q.Finish(q, fails)) || name == q.processing.value
    ensures fails && q.requeues[q.processing.value] < Q.MAX_RETRIES ==> name in Q.Pending(Q.Finish(q, fails))
    ensures q.processing.value in q.dirty ==> name in Q.Pending(Q.Finish(q, fails))
  {
  }

  lemma OthersPending(q: Q.Queue)
    ensures forall k :: k in Q.Pending(q) ==> forall name :: k in Q.Pending(Q.Add(q, name))
    ensures forall name :: name in Q.Pending(Q.Add(q, name))
    ensures q.processing.Some? ==> q.processing.value in Q.Pending(q)
    ensures q.order != [] && q.processing.None? && Q.Inv(q) ==> Q.Pending(Q.Get(q)) == Q.Pending(q)
  {
    if q.order != [] && q.processing.None? && Q.Inv(q) {
      assert q.order[0] in q.order;
    }
  }

  /** What is outstanding stays so, but for a name that has just been processed without failure or retry. */
  lemma StaysOutstanding(s: System, h: Happening, name: string)
    requires IsConsistent(s) && IsOutstanding(s, name)
    ensures IsOutstanding(Happen(s, h), name) || (h.Worked? && CanHappen(s, h) && name == s.queue.processing.value)
  {
    hide Q.Pending, Q.Finish, Q.Add, Q.Get, Q.Fire, AfterLookup, Q.Inv;
    OthersPending(s.queue);
    if CanHappen(s, h) {
      match h {
        case TimerFired(k) => FiredKeepsDirty(s.queue, k);
        case Worked =>
          if name in Q.Pending(s.queue) {
            FinishedPending(s.queue, s.looked.value.Failed?, name);
          }
        case _ =>
      }
    }
  }

  /**
   The name that has been processed: after a failure, or if what was seen is no longer so, it is outstanding again.
   */
  lemma ProcessedOutstanding(s: System)
    requires IsConsistent(s) && CanHappen(s, Worked)
    ensures var name := s.queue.processing.value;
      || IsOutstanding(Happen(s, Worked), name)
      || (s.looked == Some(Saw(None)) && name !in s.index)
      || (s.looked.value.Saw? && s.looked.value.data.Some? && name in s.index)
  {
    hide Q.Pending, Q.Finish, AfterLookup, Q.Inv;
    OthersPending(s.queue);
    FinishedPending(s.queue, s.looked.value.Failed?, s.queue.processing.value);
  }

  lemma HappenKeepsOwners(s: System, h: Happening)
    requires IsConsistent(s) && NoOrphans(s)
    ensures NoOrphans(Happen(s, h))
  {
    hide IsOutstanding, IsConsistent, Q.Finish, Q.Add, Q.Get, Q.Fire;
    var t := Happen(s, h);
    forall cluster | cluster in t.cs
      ensures t.cs[cluster] in t.index || IsOutstanding(t, t.cs[cluster])
    {
      var owner := t.cs[cluster];
      if IsOutstanding(s, owner) {
        StaysOutstanding(s, h, owner);
      }
      if h.Worked? && CanHappen(s, h) {
        ProcessedOutstanding(s);
      }
      if h.SecretDeleted? && CanHappen(s, h) && owner == h.name {
        JustDeleted(s, h.name);
      }
    }
  }

  lemma JustDeleted(s: System, name: string)
    requires name in s.index
    ensures IsOutstanding(Happen(s, SecretDeleted(name)), name)
  {
  }

  /** Nothing is left to be done, and nothing was given up. */
  predicate IsDrained(s: System) {
    s.undelivered == multiset{} && Q.Pending(s.queue) == {} && s.gaveUp == {}
  }

  /** In every run: once all is drained, every member cluster belongs to a secret that exists. */
  lemma {:induction false} OwnersOverRuns(hs: seq<Happening>)
    ensures IsConsistent(HappenAll(hs)) && NoOrphans(HappenAll(hs))
    ensures var s := HappenAll(hs);
      IsDrained(s) ==> forall cluster :: cluster in s.cs ==> s.cs[cluster] in s.index
  {
    if hs != [] {
      var init := hs[..|hs| - 1];
      OwnersOverRuns(init);
      HappenConsistent(HappenAll(init), hs[|hs| - 1]);
      HappenKeepsOwners(HappenAll(init), hs[|hs| - 1]);
    }
  }

  /**
   A cluster leaves only with a processing that found its owner gone, keeps its owner until then, and enters only with a
   processing that found a secret which configures it properly. A look-up that fails changes nothing.
   */
  lemma WorkMeaning(s: System, h: Happening, cluster: string)
    ensures cluster in s.cs && cluster !in Happen(s, h).cs ==>
      h.Worked? && s.looked == Some(Saw(None)) && s.queue.processing == Some(s.cs[cluster])
    ensures cluster in s.cs && cluster in Happen(s, h).cs ==> Happen(s, h).cs[cluster] == s.cs[cluster]
    ensures cluster !in s.cs && cluster in Happen(s, h).cs ==>
      && h.Worked? && s.looked.Some? && s.looked.value.Saw? && s.looked.value.data.Some?
      && cluster in s.looked.value.data.value && s.queue.processing == Some(Happen(s, h).cs[cluster])
    ensures s.looked == Some(Failed) ==> Happen(s, h).cs == s.cs
  {
    hide Q.Finish, Q.Add, Q.Fire, Q.Get;
  }

  // ----- Which configured clusters are registered -----

  /** The contents that secrets carry over time, as pairs of a secret's name and a content it has. */
  type Carried = set<(string, SecretData)>

  predicate Configures(data: SecretData, cluster: string) {
    cluster in data && Valid(data[cluster])
  }

  ghost predicate Carries(carried: Carried, hs: seq<Happening>) {
    forall i :: 0 <= i < |hs| ==>
      match hs[i]
      case SecretAdded(name, data) => (name, data) in carried
      case SecretChanged(name, data) => (name, data) in carried
      case _ => true
  }

  /** A cluster is configured by one secret only, and by all contents that this secret ever has. */
  ghost predicate NoContest(carried: Carried) {
    forall c, d, cluster :: c in carried && d in carried && Configures(c.1, cluster) ==>
      (Configures(d.1, cluster) <==> c.0 == d.0)
  }

  /** Every cluster that an existing secret configures properly is registered. */
  ghost predicate AllRegistered(s: System) {
    forall name, cluster :: name in s.index && Configures(s.index[name], cluster) ==> cluster in s.cs
  }

  /** In all runs every configured cluster is registered as soon as nothing is left to be done. */
  ghost predicate RegistersAll(carried: Carried) {
    forall hs :: Carries(carried, hs) && IsDrained(HappenAll(hs)) ==> AllRegistered(HappenAll(hs))
  }

  /** All contents in the index and under way are carried ones, and so is some content behind every registration. */
  ghost predicate IsCarried(carried: Carried, s: System) {
    && (forall name :: name in s.index ==> (name, s.index[name]) in carried)
    && (s.looked.Some? && s.looked.value.Saw? && s.looked.value.data.Some? && s.queue.processing.Some? ==>
      (s.queue.processing.value, s.looked.value.data.value) in carried)
    && forall cluster :: cluster in s.cs ==>
      exists c :: c in carried && c.0 == s.cs[cluster] && Configures(c.1, cluster)
  }

  /** What is configured is registered, or its secret is outstanding. */
  ghost predicate IsCovered(s: System) {
    forall name, cluster :: name in s.index && Configures(s.index[name], cluster) ==>
      cluster in s.cs || IsOutstanding(s, name)
  }

  lemma HappenCarried(carried: Carried, s: System, h: Happening)
    requires IsCarried(carried, s) && Carries(carried, [h]) && LookupOk(s)
    ensures IsCarried(carried, Happen(s, h))
  {
    hide Q.Pending, Q.Finish, Q.Add, Q.Fire, Configures, IsCurrent;
    assert [h][0] == h;
    var t := Happen(s, h);
    QueueSteps(s.queue);
    forall cluster | cluster in t.cs
      ensures exists c :: c in carried && c.0 == t.cs[cluster] && Configures(c.1, cluster)
    {
      if cluster !in s.cs {
        var c := (s.queue.processing.value, s.looked.value.data.value);
        NewlyConfigured(s.cs, c.0, c.1, cluster);
        assert c in carried && c.0 == t.cs[cluster] && Configures(c.1, cluster);
      }
    }
  }

  lemma NewlyConfigured(cs: map<string, string>, name: string, data: SecretData, cluster: string)
    requires cluster in WithMembers(cs, name, data) && cluster !in cs
    ensures Configures(data, cluster) && WithMembers(cs, name, data)[cluster] == name
  {
  }

  lemma HappenCovered(carried: Carried, s: System, h: Happening)
    requires NoContest(carried) && IsCarried(carried, s) && Carries(carried, [h]) && IsConsistent(s) && IsCovered(s)
    ensures IsCovered(Happen(s, h))
  {
    hide IsOutstanding, Q.Finish, Q.Add, Q.Get, Q.Fire, Q.Pending, Q.Inv;
    assert [h][0] == h;
    var t := Happen(s, h);
    forall name, cluster | name in t.index && Configures(t.index[name], cluster)
      ensures cluster in t.cs || IsOutstanding(t, name)
    {
      if IsOutstanding(s, name) {
        StaysOutstanding(s, h, name);
      }
      if CanHappen(s, h) {
        match h {
          case SecretAdded(added, _) => JustAdded(s, added, h.data);
          case SecretChanged(changed, data) =>
            if name == changed {
              assert (name, s.index[name]) in carried && (name, data) in carried;
            }
          case Worked => WorkedCovers(carried, s, name, cluster);
          case _ =>
        }
      }
    }
  }

  lemma JustAdded(s: System, name: string, data: SecretData)
    requires name !in s.index
    ensures IsOutstanding(Happen(s, SecretAdded(name, data)), name)
  {
  }

  lemma WorkedCovers(carried: Carried, s: System, name: string, cluster: string)
    requires NoContest(carried) && IsCarried(carried, s) && IsConsistent(s) && IsCovered(s)
    requires CanHappen(s, Worked) && name in s.index && Configures(s.index[name], cluster)
    ensures var t := Happen(s, Worked); cluster in t.cs || IsOutstanding(t, name)
  {
    hide IsOutstanding, Q.Finish, Q.Pending, Q.Inv;
    var current := s.queue.processing.value;
    ProcessedOutstanding(s);
    if name == current {
      if s.looked.value.Saw? && s.looked.value.data.Some? {
        assert (name, s.looked.value.data.value) in carried && (name, s.index[name]) in carried;
      }
    } else {
      if IsOutstanding(s, name) {
        StaysOutstanding(s, Worked, name);
      } else {
        var c :| c in carried && c.0 == s.cs[cluster] && Configures(c.1, cluster);
        assert (name, s.index[name]) in carried;
        assert s.cs[cluster] == name;
      }
    }
  }

  lemma {:induction false} RunCovered(carried: Carried, hs: seq<Happening>)
    requires NoContest(carried) && Carries(carried, hs)
    ensures var s := HappenAll(hs); IsConsistent(s) && IsCarried(carried, s) && IsCovered(s)
  {
    hide NoContest, IsCarried, IsCovered, Happen;
    if hs == [] {
      NothingCovered(carried);
    } else {
      var init, last := hs[..|hs| - 1], hs[|hs| - 1];
      assert Carries(carried, init) && Carries(carried, [last]);
      RunCovered(carried, init);
      OwnersOverRuns(hs);
      HappenCarried(carried, HappenAll(init), last);
      HappenCovered(carried, HappenAll(init), last);
    }
  }

  lemma NothingCovered(carried: Carried)
    ensures IsConsistent(NO_SECRETS) && IsCarried(carried, NO_SECRETS) && IsCovered(NO_SECRETS)
  {
  }

  // ----- Runs that leave a cluster out -----

  /** The notification of a secret and its processing, without a failure. */
  function Round(name: string): seq<Happening> {
    [Delivered(name), ItemTaken, LookedUp(false), Worked]
  }

  /** A system at rest but for one notification. */
  predicate IsNotified(s: System, name: string) {
    s.undelivered == multiset{name} && s.queue == Q.EMPTY_QUEUE && s.looked.None? && s.gaveUp == {}
  }

  predicate IsAtRest(s: System) {
    s.undelivered == multiset{} && s.queue == Q.EMPTY_QUEUE && s.looked.None? && s.gaveUp == {}
  }

  lemma Next(hs: seq<Happening>, h: Happening)
    ensures HappenAll(hs + [h]) == Happen(HappenAll(hs), h)
  {
    assert (hs + [h])[..|hs|] == hs;
  }

  lemma RoundWorks(hs: seq<Happening>, name: string)
    requires IsNotified(HappenAll(hs), name)
    ensures var s, t := HappenAll(hs), HappenAll(hs + Round(name));
      IsAtRest(t) && t.index == s.index && t.cs == AfterLookup(s.cs, name, Saw(IndexAt(s, name)))
  {
    hide HappenAll, AfterLookup, Q.Add, Q.Get, Q.Finish, Happen, IsNotified, IsAtRest;
    var s := HappenAll(hs);
    Next(hs, Delivered(name));
    Next(hs + [Delivered(name)], ItemTaken);
    Next(hs + [Delivered(name)] + [ItemTaken], LookedUp(false));
    Next(hs + [Delivered(name)] + [ItemTaken] + [LookedUp(false)], Worked);
    assert hs + Round(name) == hs + [Delivered(name)] + [ItemTaken] + [LookedUp(false)] + [Worked];
    OneRound(s, name);
  }

  lemma OneRound(s: System, name: string)
    requires IsNotified(s, name)
    ensures var t := Happen(Happen(Happen(Happen(s, Delivered(name)), ItemTaken), LookedUp(false)), Worked);
      IsAtRest(t) && t.index == s.index && t.cs == AfterLookup(s.cs, name, Saw(IndexAt(s, name)))
  {
    hide AfterLookup, Q.Add, Q.Get, Q.Finish;
    OneTurn(name);
    var q := Q.Add(Q.EMPTY_QUEUE, name);
    var a := s.(undelivered := multiset{}, queue := q);
    assert Happen(s, Delivered(name)) == a;
    var b := a.(queue := Q.Get(q));
    assert Happen(a, ItemTaken) == b;
    var c := b.(looked := Some(Saw(IndexAt(s, name))));
    assert Happen(b, LookedUp(false)) == c;
  }

  lemma OneTurn(name: string)
    ensures var q := Q.Add(Q.EMPTY_QUEUE, name);
      q.order == [name] && q.processing.None? && Q.Get(q).processing == Some(name)
      && Q.Finish(Q.Get(q), false) == Q.EMPTY_QUEUE
  {
  }

  /** A secret is added to a system at rest and processed. */
  lemma AddRound(hs: seq<Happening>, name: string, data: SecretData)
    requires IsAtRest(HappenAll(hs)) && name !in HappenAll(hs).index
    ensures var s, t := HappenAll(hs), HappenAll(hs + [SecretAdded(name, data)] + Round(name));
      IsAtRest(t) && t.index == s.index[name := data] && t.cs == WithMembers(s.cs, name, data)
  {
    hide HappenAll, WithMembers;
    Next(hs, SecretAdded(name, data));
    RoundWorks(hs + [SecretAdded(name, data)], name);
  }

  lemma DeleteRound(hs: seq<Happening>, name: string)
    requires IsAtRest(HappenAll(hs)) && name in HappenAll(hs).index
    ensures var s, t := HappenAll(hs), HappenAll(hs + [SecretDeleted(name)] + Round(name));
      IsAtRest(t) && t.index == s.index - {name} && t.cs == WithoutOwner(s.cs, name)
  {
    hide HappenAll, WithoutOwner;
    Next(hs, SecretDeleted(name));
    RoundWorks(hs + [SecretDeleted(name)], name);
  }

  lemma RestIsDrained(s: System)
    requires IsAtRest(s)
    ensures IsDrained(s)
  {
  }

  lemma AtRestFirst()
    ensures IsAtRest(HappenAll([])) && HappenAll([]) == NO_SECRETS
  {
  }

  /** Two secrets hold a cluster, and the one that owns it is deleted: the cluster of the other stays unregistered. */
  lemma ContestedLeftOut(carried: Carried, owner: string, data: SecretData, other: string, data': SecretData,
      cluster: string)
    requires (owner, data) in carried && (other, data') in carried && owner != other
    requires Configures(data, cluster) && Configures(data', cluster)
    ensures !RegistersAll(carried)
  {
    hide HappenAll, IsAtRest, Carries, Round;
    AtRestFirst();
    var first := [] + [SecretAdded(owner, data)] + Round(owner);
    AddRound([], owner, data);
    var second := first + [SecretAdded(other, data')] + Round(other);
    AddRound(first, other, data');
    var third := second + [SecretDeleted(owner)] + Round(owner);
    DeleteRound(second, owner);
    NoneCarried(carried);
    CarriesMore(carried, [], SecretAdded(owner, data), owner);
    CarriesMore(carried, first, SecretAdded(other, data'), other);
    CarriesMore(carried, second, SecretDeleted(owner), owner);
    var s := HappenAll(third);
    assert other in s.index && Configures(s.index[other], cluster) && cluster !in s.cs;
    RestIsDrained(s);
  }

  /** A secret comes to configure a cluster by a change: nothing is processed, and the cluster stays unregistered. */
  lemma ChangeLeftOut(carried: Carried, name: string, data: SecretData, data': SecretData, cluster: string)
    requires (name, data) in carried && (name, data') in carried
    requires Configures(data', cluster) && !Configures(data, cluster)
    ensures !RegistersAll(carried)
  {
    hide HappenAll, Round;
    AtRestFirst();
    var first := [] + [SecretAdded(name, data)] + Round(name);
    AddRound([], name, data);
    var second := first + [SecretChanged(name, data')];
    Next(first, SecretChanged(name, data'));
    var s := HappenAll(second);
    assert name in s.index && Configures(s.index[name], cluster) && cluster !in s.cs;
    RestIsDrained(s);
    NoneCarried(carried);
    CarriesMore(carried, [], SecretAdded(name, data), name);
    assert Carries(carried, second);
  }

  lemma RoundCarries(carried: Carried, name: string)
    ensures Carries(carried, Round(name))
  {
  }

  lemma NoneCarried(carried: Carried)
    ensures Carries(carried, [])
  {
  }

  lemma CarriesMore(carried: Carried, hs: seq<Happening>, h: Happening, name: string)
    requires Carries(carried, hs)
    requires h.SecretDeleted? || (h.SecretAdded? && (h.name, h.data) in carried)
    ensures Carries(carried, hs + [h] + Round(name))
  {
    hide Round;
    var more := hs + [h];
    RoundCarries(carried, name);
    assert forall i :: 0 <= i < |Round(name)| ==> (more + Round(name))[|more| + i] == Round(name)[i];
  }

  /**
   Every cluster that an existing secret configures properly is registered in all runs, as soon as nothing is left to be
   done, if and only if no two secrets ever configure one cluster and no secret ever changes which it configures.
   */
  lemma RegistersAllExactly(carried: Carried)
    ensures RegistersAll(carried) <==> NoContest(carried)
  {
    hide HappenAll, Carries;
    if NoContest(carried) {
      forall hs | Carries(carried, hs) && IsDrained(HappenAll(hs))
        ensures AllRegistered(HappenAll(hs))
      {
        RunCovered(carried, hs);
      }
    } else {
      var c, d, cluster :| c in carried && d in carried && Configures(c.1, cluster)
        && !(Configures(d.1, cluster) <==> c.0 == d.0);
      if c.0 == d.0 {
        ChangeLeftOut(carried, c.0, d.1, c.1, cluster);
      } else {
        ContestedLeftOut(carried, c.0, c.1, d.0, d.1, cluster);
      }
    }
  }
}
