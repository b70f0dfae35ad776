/**
 Member clusters: which secret owns a cluster, who is told about it, and the worker that keeps both in step with the
 secrets.
 */
module Multicluster {
  import opened Limiter
  import Q = WorkQueue

  /**
   What a secret says about a cluster; with NoClient the configuration is valid but no client can be built from it.
   */
  datatype KubeConfig = Empty | Broken | NoClient | Usable

  type SecretData = map<string, KubeConfig>

  /** What the controller does about a cluster, call of callbacks included; callbacks are known by their position. */
  datatype Notice =
    | Registered(cluster: string)
    | Removed(cluster: string)
    | Subscribed(cluster: string, callback: nat)
    | Unsubscribed(cluster: string, callback: nat)

  /** The owners of the clusters and everything that was done so far. */
  datatype Registry = Registry(cs: map<string, string>, done: multiset<Notice>)

  predicate Valid(config: KubeConfig) {
    config.NoClient? || config.Usable?
  }

  /** A cluster that has no owner yet and that the secret configures properly. */
  predicate Joins(cs: map<string, string>, data: SecretData, cluster: string) {
    cluster in data && cluster !in cs && Valid(data[cluster])
  }

  /** The first owner wins: a secret registers the clusters it configures that have no owner. */
  function WithMembers(cs: map<string, string>, secretName: string, data: SecretData): map<string, string> {
    cs + map cluster | cluster in data && Joins(cs, data, cluster) :: secretName
  }

  function WithoutOwner(cs: map<string, string>, secretName: string): map<string, string> {
    map cluster | cluster in cs && cs[cluster] != secretName :: cs[cluster]
  }

  predicate IsTold(n: Notice, cluster: string, callbacks: nat) {
    n.Subscribed? && n.cluster == cluster && n.callback < callbacks
  }

  predicate IsToldLeaving(n: Notice, cluster: string, callbacks: nat) {
    n.Unsubscribed? && n.cluster == cluster && n.callback < callbacks
  }

  /**
   How often a notice is given when a secret is added: a cluster that joins is registered, and all are told if it is
   usable.
   */
  function JoinCount(config: KubeConfig, subscribers: nat, n: Notice): nat {
    match n
    case Registered(_) => 1
    case Subscribed(_, callback) => if config.Usable? && callback < subscribers then 1 else 0
    case _ => 0
  }

  function AddCount(cs: map<string, string>, data: SecretData, subscribers: nat, n: Notice): nat {
    if Joins(cs, data, n.cluster) then JoinCount(data[n.cluster], subscribers, n) else 0
  }

  /** How often a notice about a cluster is given when it leaves: it is removed, and every callback is told. */
  function LeaveCount(unSubscribers: nat, n: Notice): nat {
    match n
    case Removed(_) => 1
    case Unsubscribed(_, callback) => if callback < unSubscribers then 1 else 0
    case _ => 0
  }

  function DeleteCount(cs: map<string, string>, secretName: string, unSubscribers: nat, n: Notice): nat {
    if n.cluster in cs && cs[n.cluster] == secretName then LeaveCount(unSubscribers, n) else 0
  }

  ghost predicate IsAdded(before: Registry, secretName: string, data: SecretData, subscribers: nat, after: Registry) {
    && after.cs == WithMembers(before.cs, secretName, data)
    && forall n :: after.done[n] == before.done[n] + AddCount(before.cs, data, subscribers, n)
  }

  ghost predicate IsDeleted(before: Registry, secretName: string, unSubscribers: nat, after: Registry) {
    && after.cs == WithoutOwner(before.cs, secretName)
    && forall n :: after.done[n] == before.done[n] + DeleteCount(before.cs, secretName, unSubscribers, n)
  }

  class Controller {
    const subscribers: nat
    const unSubscribers: nat
    var cs: map<string, string>
    var log: seq<Notice>
    var queue: Q.Queue

    function Known(): Registry
      reads this
    {
      Registry(cs, multiset(log))
    }

    constructor (subscribers: nat, unSubscribers: nat)
      ensures this.subscribers == subscribers && this.unSubscribers == unSubscribers
      ensures Known() == Registry(map[], multiset{}) && queue == Q.EMPTY_QUEUE
    {
      this.subscribers, this.unSubscribers := subscribers, unSubscribers;
      cs, log, queue := map[], [], Q.EMPTY_QUEUE;
    }

    method Tell(cluster: string)
      modifies this`log
      ensures forall n :: multiset(log)[n] == multiset(old(log))[n] + if IsTold(n, cluster, subscribers) then 1 else 0
    {
      for f := 0 to subscribers
        invariant forall n :: multiset(log)[n] == multiset(old(log))[n] + if IsTold(n, cluster, f) then 1 else 0
      {
        log := log + [Subscribed(cluster, f)];
      }
    }

    method TellLeaving(cluster: string)
      modifies this`log
      ensures forall n ::
        multiset(log)[n] == multiset(old(log))[n] + if IsToldLeaving(n, cluster, unSubscribers) then 1 else 0
    {
      for f := 0 to unSubscribers
        invariant forall n :: multiset(log)[n] == multiset(old(log))[n] + if IsToldLeaving(n, cluster, f) then 1 else 0
      {
        log := log + [Unsubscribed(cluster, f)];
      }
    }

    method AddMemberCluster(secretName: string, data: SecretData)
      modifies this`cs, this`log
      ensures IsAdded(old(Known()), secretName, data, subscribers, Known())
    {
      hide IsAdded;
      ghost var before := Known();
      NothingAdded(before, secretName, subscribers);
      var remaining := data.Keys;
      ghost var seen: SecretData := map[];
      while remaining != {}
        invariant remaining <= data.Keys
        invariant seen == map cluster | cluster in data && cluster !in remaining :: data[cluster]
        invariant IsAdded(before, secretName, seen, subscribers, Known())
      {
        var clusterID :| clusterID in remaining;
        remaining := remaining - {clusterID};
        ghost var current := Known();
        AddOne(secretName, clusterID, data[clusterID]);
        AddedSnoc(before, secretName, seen, subscribers, current, clusterID, data[clusterID], Known());
        seen := seen[clusterID := data[clusterID]];
      }
      assert seen == data;
    }

    method AddOne(secretName: string, clusterID: string, kubeConfig: KubeConfig)
      modifies this`cs, this`log
      ensures IsAdded(old(Known()), secretName, map[clusterID := kubeConfig], subscribers, Known())
    {
      hide IsAdded;
      ghost var before := Known();
      AddedAlone(before, secretName, clusterID, kubeConfig, subscribers);
      if clusterID !in cs {
        if kubeConfig.Empty? || kubeConfig.Broken? {
          return;
        }
        cs := cs[clusterID := secretName];
        log := log + [Registered(clusterID)];
        if kubeConfig.NoClient? {
          assert IsAddedOne(before, secretName, clusterID, kubeConfig, subscribers, Known());
          return;
        }
        Tell(clusterID);
        assert IsAddedOne(before, secretName, clusterID, kubeConfig, subscribers, Known());
      }
    }

    method DeleteMemberCluster(secretName: string)
      modifies this`cs, this`log
      ensures IsDeleted(old(Known()), secretName, unSubscribers, Known())
    {
      hide IsPartlyDeleted, IsDeletedOne, IsDeleted;
      ghost var before := Known();
      var remaining := cs.Keys;
      DeletionStarts(before, secretName, unSubscribers);
      while remaining != {}
        invariant remaining <= before.cs.Keys
        invariant IsPartlyDeleted(before, secretName, unSubscribers, remaining, Known())
      {
        var clusterID :| clusterID in remaining;
        ghost var current := Known();
        Unvisited(before, secretName, unSubscribers, remaining, current, clusterID);
        DeleteOne(secretName, clusterID);
        DeletedSnoc(before, secretName, unSubscribers, remaining, current, clusterID, Known());
        remaining := remaining - {clusterID};
      }
      DeletionEnds(before, secretName, unSubscribers, Known());
    }

    method DeleteOne(secretName: string, clusterID: string)
      requires clusterID in cs
      modifies this`cs, this`log
      ensures IsDeletedOne(old(Known()), secretName, unSubscribers, clusterID, Known())
    {
      if cs[clusterID] == secretName {
        TellLeaving(clusterID);
        cs := cs - {clusterID};
        log := log + [Removed(clusterID)];
      }
    }

    /** The look-up of the secret by the informer may fail; None is a secret that is gone. */
    method ProcessItem(secretName: string, lookUpFails: bool, obj: Option<SecretData>) returns (failed: bool)
      modifies this`cs, this`log
      ensures failed == lookUpFails
      ensures lookUpFails ==> Known() == old(Known())
      ensures !lookUpFails && obj.Some? ==> IsAdded(old(Known()), secretName, obj.value, subscribers, Known())
      ensures !lookUpFails && obj.None? ==> IsDeleted(old(Known()), secretName, unSubscribers, Known())
    {
      if lookUpFails {
        return true;
      }
      failed := false;
      if obj.Some? {
        AddMemberCluster(secretName, obj.value);
      } else {
        DeleteMemberCluster(secretName);
      }
    }

    method ProcessNextItem(lookUpFails: bool, obj: Option<SecretData>)
      requires Q.Inv(queue) && queue.order != [] && queue.processing.None?
      modifies this
      ensures Q.Inv(queue) && queue == Q.Finish(Q.Get(old(queue)), lookUpFails)
      ensures var secretName := old(queue).order[0];
        && (lookUpFails ==> Known() == old(Known()))
        && (!lookUpFails && obj.Some? ==> IsAdded(old(Known()), secretName, obj.value, subscribers, Known()))
        && (!lookUpFails && obj.None? ==> IsDeleted(old(Known()), secretName, unSubscribers, Known()))
    {
      Q.GetKeepsInv(queue);
      var secretName := queue.order[0];
      queue := Q.Get(queue);
      Q.FinishKeepsInv(queue, lookUpFails);
      var failed := ProcessItem(secretName, lookUpFails, obj);
      if !failed {
        queue := Q.Forget(queue, secretName);
      } else if queue.requeues[secretName] < Q.MAX_RETRIES {
        queue := Q.AddRateLimited(queue, secretName);
      } else {
        queue := Q.Forget(queue, secretName);
      }
      queue := Q.Done(queue);
    }

    /** The worker left alone with its delayed retries: it comes to an end, however often look-ups fail. */
    method RunWorker(secrets: map<string, SecretData>)
      requires Q.Inv(queue) && queue.processing.None?
      modifies this
      ensures Q.Inv(queue) && Q.Pending(queue) == {} && queue.requeues == multiset{}
      ensures forall cluster :: cluster in old(cs) && old(cs)[cluster] in secrets ==>
        cluster in cs && cs[cluster] == old(cs)[cluster]
    {
      hide Q.Measure, Q.Inv;
      ghost var before := cs;
      while queue.order != [] || queue.waiting != {}
        invariant Q.Inv(queue) && queue.processing.None?
        invariant forall cluster :: cluster in before && before[cluster] in secrets ==>
          cluster in cs && cs[cluster] == before[cluster]
        decreases Q.Measure(queue), |queue.waiting|
      {
        Q.MeasureBound(queue);
        var timer: bool := *;
        if queue.order == [] || (timer && queue.waiting != {}) {
          var k :| k in queue.waiting;
          Q.TimerKeepsInv(queue, k);
          Q.InternalStepsKeepMeasure(queue, Q.Timer(k));
          queue := Q.Fire(queue, k);
        } else {
          var lookUpFails: bool := *;
          var secretName := queue.order[0];
          Q.GetKeepsInv(queue);
          Q.InternalStepsKeepMeasure(queue, Q.Take);
          Q.FinishLowersMeasure(Q.Get(queue), lookUpFails);
          ProcessNextItem(lookUpFails, if secretName in secrets then Some(secrets[secretName]) else None);
        }
      }
      Q.IdleIsDrained(queue);
    }
  }

  /**
   A cluster without an owner that is configured properly is registered, and all callbacks are told if it is usable.
   */
  ghost predicate IsAddedOne(before: Registry, secretName: string, cluster: string, config: KubeConfig,
      subscribers: nat,
      after: Registry)
  {
    && after.cs == before.cs[cluster := secretName]
    && forall n ::
      after.done[n] == before.done[n] + if n.cluster == cluster then JoinCount(config, subscribers, n) else 0
  }

  lemma AddedAlone(before: Registry, secretName: string, cluster: string, config: KubeConfig, subscribers: nat)
    ensures cluster in before.cs || !Valid(config) ==>
      IsAdded(before, secretName, map[cluster := config], subscribers, before)
    ensures cluster !in before.cs && Valid(config) ==>
      forall after :: IsAddedOne(before, secretName, cluster, config, subscribers, after) ==>
        IsAdded(before, secretName, map[cluster := config], subscribers, after)
  {
    if cluster !in before.cs && Valid(config) {
      JoinsAlone(before.cs, secretName, cluster, config);
    } else {
      assert WithMembers(before.cs, secretName, map[cluster := config]) == before.cs;
    }
  }

  ghost predicate IsDeletedOne(before: Registry, secretName: string, unSubscribers: nat, cluster: string,
      after: Registry) {
    if cluster in before.cs && before.cs[cluster] == secretName then
      && after.cs == before.cs - {cluster}
      && forall n :: after.done[n] == before.done[n] + if n.cluster == cluster then LeaveCount(unSubscribers, n) else 0
    else
      after == before
  }

  /** A deletion that has still to visit some of the clusters. */
  ghost predicate IsPartlyDeleted(before: Registry, secretName: string, unSubscribers: nat, remaining: set<string>,
      current: Registry)
  {
    && (forall c :: c in current.cs <==> c in before.cs && (c in remaining || before.cs[c] != secretName))
    && (forall c :: c in current.cs ==> current.cs[c] == before.cs[c])
    && forall n ::
      current.done[n] == before.done[n]
        + if n.cluster in remaining then 0 else DeleteCount(before.cs, secretName, unSubscribers, n)
  }

  lemma DeletionStarts(before: Registry, secretName: string, unSubscribers: nat)
    ensures IsPartlyDeleted(before, secretName, unSubscribers, before.cs.Keys, before)
  {
  }

  lemma DeletionEnds(before: Registry, secretName: string, unSubscribers: nat, after: Registry)
    requires IsPartlyDeleted(before, secretName, unSubscribers, {}, after)
    ensures IsDeleted(before, secretName, unSubscribers, after)
  {
  }

  /** A cluster that is still to be visited is still registered. */
  lemma Unvisited(before: Registry, secretName: string, unSubscribers: nat, remaining: set<string>, current: Registry,
      cluster: string)
    requires cluster in remaining && remaining <= before.cs.Keys
    requires IsPartlyDeleted(before, secretName, unSubscribers, remaining, current)
    ensures cluster in current.cs
  {
  }

  lemma DeletedSnoc(before: Registry, secretName: string, unSubscribers: nat, remaining: set<string>, current: Registry,
      cluster: string, after: Registry)
    requires cluster in remaining && remaining <= before.cs.Keys
    requires IsPartlyDeleted(before, secretName, unSubscribers, remaining, current)
    requires IsDeletedOne(current, secretName, unSubscribers, cluster, after)
    ensures IsPartlyDeleted(before, secretName, unSubscribers, remaining - {cluster}, after)
  {
  }

  lemma NothingAdded(before: Registry, secretName: string, subscribers: nat)
    ensures IsAdded(before, secretName, map[], subscribers, before)
  {
    assert WithMembers(before.cs, secretName, map[]) == before.cs;
  }

  lemma AddedSnoc(before: Registry, secretName: string, seen: SecretData, subscribers: nat, current: Registry,
      clusterID: string, config: KubeConfig, after: Registry)
    requires clusterID !in seen
    requires IsAdded(before, secretName, seen, subscribers, current)
    requires IsAdded(current, secretName, map[clusterID := config], subscribers, after)
    ensures IsAdded(before, secretName, seen[clusterID := config], subscribers, after)
  {
    var one, more := map[clusterID := config], seen[clusterID := config];
    MembersSnoc(before.cs, secretName, seen, clusterID, config);
    forall n
      ensures after.done[n] == before.done[n] + AddCount(before.cs, more, subscribers, n)
    {
      CountSnoc(before.cs, secretName, seen, subscribers, clusterID, config, n);
      assert after.done[n] == current.done[n] + AddCount(current.cs, one, subscribers, n);
      assert current.done[n] == before.done[n] + AddCount(before.cs, seen, subscribers, n);
    }
  }

  lemma JoinsAlone(cs: map<string, string>, secretName: string, clusterID: string, config: KubeConfig)
    requires clusterID !in cs && Valid(config)
    ensures WithMembers(cs, secretName, map[clusterID := config]) == cs[clusterID := secretName]
  {
  }

  /** Who owns a cluster after a secret was added. */
  lemma MemberAt(cs: map<string, string>, secretName: string, data: SecretData, cluster: string)
    ensures cluster in WithMembers(cs, secretName, data) <==> cluster in cs || (cluster in data && Valid(data[cluster]))
    ensures cluster in WithMembers(cs, secretName, data) ==>
      WithMembers(cs, secretName, data)[cluster] == if cluster in cs then cs[cluster] else secretName
  {
  }

  lemma MembersSnoc(cs: map<string, string>, secretName: string, seen: SecretData, clusterID: string,
      config: KubeConfig)
    requires clusterID !in seen
    ensures WithMembers(WithMembers(cs, secretName, seen), secretName, map[clusterID := config]) ==
      WithMembers(cs, secretName, seen[clusterID := config])
  {
    hide WithMembers, Valid;
    var first := WithMembers(cs, secretName, seen);
    var a := WithMembers(first, secretName, map[clusterID := config]);
    var b := WithMembers(cs, secretName, seen[clusterID := config]);
    forall c
      ensures c in a <==> c in b
      ensures c in a ==> a[c] == b[c]
    {
      MemberAt(cs, secretName, seen, c);
      MemberAt(first, secretName, map[clusterID := config], c);
      MemberAt(cs, secretName, seen[clusterID := config], c);
    }
  }

  lemma CountSnoc(cs: map<string, string>, secretName: string, seen: SecretData, subscribers: nat,
      clusterID: string, config: KubeConfig, n: Notice)
    requires clusterID !in seen
    ensures AddCount(cs, seen[clusterID := config], subscribers, n) ==
      AddCount(cs, seen, subscribers, n)
        + AddCount(WithMembers(cs, secretName, seen), map[clusterID := config], subscribers, n)
  {
    assert clusterID in WithMembers(cs, secretName, seen) <==> clusterID in cs;
  }

  // ----- Runs of the registry -----

  datatype Change = Add(secretName: string, data: SecretData) | Delete(secretName: string)

  ghost predicate IsChanged(before: Registry, c: Change, subscribers: nat, unSubscribers: nat, after: Registry) {
    match c
    case Add(secretName, data) => IsAdded(before, secretName, data, subscribers, after)
    case Delete(secretName) => IsDeleted(before, secretName, unSubscribers, after)
  }

  /** A run from the empty registry, state after state. */
  ghost predicate IsRun(states: seq<Registry>, changes: seq<Change>, subscribers: nat, unSubscribers: nat) {
    && |states| == |changes| + 1
    && states[0] == Registry(map[], multiset{})
    && forall i :: 0 <= i < |changes| ==> IsChanged(states[i], changes[i], subscribers, unSubscribers, states[i + 1])
  }

  /** A cluster keeps its owner as long as it is registered, and leaves only when that owner is deleted. */
  lemma OwnerIsStable(before: Registry, c: Change, subscribers: nat, unSubscribers: nat, after: Registry,
      cluster: string)
    requires IsChanged(before, c, subscribers, unSubscribers, after) && cluster in before.cs
    ensures cluster in after.cs ==> after.cs[cluster] == before.cs[cluster]
    ensures cluster !in after.cs <==> c == Delete(before.cs[cluster])
    ensures cluster !in after.cs ==>
      forall callback :: 0 <= callback < unSubscribers ==>
        after.done[Unsubscribed(cluster, callback)] == before.done[Unsubscribed(cluster, callback)] + 1
  {
  }

  /** A change brings the cluster in. */
  predicate Enters(before: Registry, after: Registry, cluster: string) {
    cluster !in before.cs && cluster in after.cs
  }

  /**
   A cluster without an owner comes in exactly with a secret that configures it properly. The secret is its owner, it is
   registered once, and every callback hears of it once if a client can be built from the configuration.
   */
  lemma EntryIsTold(before: Registry, c: Change, subscribers: nat, unSubscribers: nat, after: Registry, cluster: string)
    requires IsChanged(before, c, subscribers, unSubscribers, after) && cluster !in before.cs
    ensures cluster in after.cs <==>
      c.Add? && cluster in c.data && (c.data[cluster].NoClient? || c.data[cluster].Usable?)
    ensures cluster in after.cs ==>
      && after.cs[cluster] == c.secretName
      && after.done[Registered(cluster)] == before.done[Registered(cluster)] + 1
      && forall callback: nat ::
        after.done[Subscribed(cluster, callback)] == before.done[Subscribed(cluster, callback)]
          + if callback < subscribers && c.data[cluster].Usable? then 1 else 0
  {
  }

  /** No other change registers a cluster or tells anyone that it is there. */
  lemma NoOtherEntry(before: Registry, c: Change, subscribers: nat, unSubscribers: nat, after: Registry,
      cluster: string)
    requires IsChanged(before, c, subscribers, unSubscribers, after) && !Enters(before, after, cluster)
    ensures after.done[Registered(cluster)] == before.done[Registered(cluster)]
    ensures forall callback: nat ::
      after.done[Subscribed(cluster, callback)] == before.done[Subscribed(cluster, callback)]
  {
  }

  /** How often a cluster came in during a run. */
  ghost function Entries(states: seq<Registry>, changes: seq<Change>, cluster: string): nat
    requires |states| == |changes| + 1
  {
    if changes == [] then 0
    else
      var n := |changes| - 1;
      Entries(states[..n + 1], changes[..n], cluster) + if Enters(states[n], states[n + 1], cluster) then 1 else 0
  }

  /** How often it came in with a configuration from which a client can be built. */
  ghost function UsableEntries(states: seq<Registry>, changes: seq<Change>, cluster: string): nat
    requires |states| == |changes| + 1
  {
    if changes == [] then 0
    else
      var n := |changes| - 1;
      var usable := changes[n].Add? && cluster in changes[n].data && changes[n].data[cluster].Usable?;
      UsableEntries(states[..n + 1], changes[..n], cluster)
        + if Enters(states[n], states[n + 1], cluster) && usable then 1 else 0
  }

  /**
   The books of a whole run: every cluster has been registered as often as it came in, once more often than removed
   exactly if it is registered now; every callback heard of it as often as it came in with a usable configuration, and
   of every removal once.
   */
  lemma {:induction false} Books(states: seq<Registry>, changes: seq<Change>, subscribers: nat, unSubscribers: nat,
      cluster: string)
    requires IsRun(states, changes, subscribers, unSubscribers)
    ensures var last := states[|changes|];
      && last.done[Registered(cluster)] == Entries(states, changes, cluster)
      && last.done[Registered(cluster)] == last.done[Removed(cluster)] + (if cluster in last.cs then 1 else 0)
      && forall callback: nat ::
        && last.done[Subscribed(cluster, callback)] ==
          (if callback < subscribers then UsableEntries(states, changes, cluster) else 0)
        && last.done[Unsubscribed(cluster, callback)] ==
          if callback < unSubscribers then last.done[Removed(cluster)] else 0
  {
    if changes != [] {
      var n := |changes| - 1;
      Books(states[..n + 1], changes[..n], subscribers, unSubscribers, cluster);
      BooksStep(states[n], changes[n], subscribers, unSubscribers, states[n + 1], cluster);
    }
  }

  lemma BooksStep(before: Registry, c: Change, subscribers: nat, unSubscribers: nat, after: Registry, cluster: string)
    requires IsChanged(before, c, subscribers, unSubscribers, after)
    ensures var usable := c.Add? && cluster in c.data && c.data[cluster].Usable?;
      && after.done[Registered(cluster)] == before.done[Registered(cluster)]
        + (if Enters(before, after, cluster) then 1 else 0)
      && after.done[Removed(cluster)] == before.done[Removed(cluster)]
        + (if cluster in before.cs && cluster !in after.cs then 1 else 0)
      && forall callback: nat ::
        && after.done[Subscribed(cluster, callback)] == before.done[Subscribed(cluster, callback)]
          + (if Enters(before, after, cluster) && usable && callback < subscribers then 1 else 0)
        && after.done[Unsubscribed(cluster, callback)] == before.done[Unsubscribed(cluster, callback)]
          + (if cluster in before.cs && cluster !in after.cs && callback < unSubscribers then 1 else 0)
  {
    if Enters(before, after, cluster) {
      EntryIsTold(before, c, subscribers, unSubscribers, after, cluster);
    } else {
      NoOtherEntry(before, c, subscribers, unSubscribers, after, cluster);
    }
  }

  /** No callback heard of a cluster more often than it was registered. */
  lemma {:induction false} UsableEntriesAtMost(states: seq<Registry>, changes: seq<Change>, cluster: string)
    requires |states| == |changes| + 1
    ensures UsableEntries(states, changes, cluster) <= Entries(states, changes, cluster)
  {
    if changes != [] {
      UsableEntriesAtMost(states[..|changes|], changes[..|changes| - 1], cluster);
    }
  }
}
