/**
 The ConfigMap of the rate-limit service. All services share the one list in it, and each refresh of a service is a
 read, a computation and an update that is accepted only if the version that was read is still the current one.
 */
module RlsConfigMap {
  import opened Seqs
  import opened Limiter
  import opened Descriptors
  import opened RateLimits

  datatype Config = Config(domain: string, descriptors: seq<RlsEntry>)

  /**
   A text in YAML: what it says and how it is laid out. The marshaller has one layout, other writers may have others.
   */
  datatype Document = Garbled(id: nat) | Document(config: Config, layout: nat)

  type Data = map<string, Document>

  function Marshal(config: Config): Document {
    Document(config, 0)
  }

  /** One call of refreshConfigMap: a service and the entries it wants. A reconciled deletion wants none. */
  datatype Op = Op(loc: Location, desc: seq<RlsEntry>)

  function NotClaimedBy(loc: Location): RlsEntry -> bool {
    (e: RlsEntry) => !Claims(loc, e.value)
  }

  /** The list with the entries of the service replaced. */
  function NewList(list: seq<RlsEntry>, op: Op): seq<RlsEntry> {
    Filter(NotClaimedBy(op.loc), list) + op.desc
  }

  function ConstructConfigMap(list: seq<RlsEntry>): Data {
    map[CONFIG_MAP_CONFIG := Marshal(Config(DOMAIN, list))]
  }

  /** The list in the data, if there is one to be read. */
  function ListOf(data: Option<Data>): Option<seq<RlsEntry>> {
    if data.Some? && CONFIG_MAP_CONFIG in data.value && data.value[CONFIG_MAP_CONFIG].Document? then
      Some(data.value[CONFIG_MAP_CONFIG].config.descriptors)
    else
      None
  }

  datatype Decision = GiveUp | Skip | Write(data: Data)

  /** What a refresh does about the data it has read. */
  function Decide(found: Option<Data>, op: Op): Decision {
    if ListOf(found).None? then
      GiveUp
    else
      var data := ConstructConfigMap(NewList(ListOf(found).value, op));
      if data == found.value then Skip else Write(data)
  }

  method ComputeUpdate(found: Option<Data>, op: Op) returns (decision: Decision)
    ensures decision == Decide(found, op)
  {
    if found.None? || CONFIG_MAP_CONFIG !in found.value || found.value[CONFIG_MAP_CONFIG].Garbled? {
      return GiveUp;
    }
    var descriptors := found.value[CONFIG_MAP_CONFIG].config.descriptors;
    var newCm: seq<RlsEntry> := [];
    for i := 0 to |descriptors|
      invariant newCm == Filter(NotClaimedBy(op.loc), descriptors[..i])
    {
      FilterSnoc(NotClaimedBy(op.loc), descriptors, i);
      var item := descriptors[i];
      if !Claims(op.loc, item.value) {
        newCm := newCm + [item];
      }
    }
    assert descriptors[..|descriptors|] == descriptors;
    newCm := newCm + op.desc;
    var configmap := ConstructConfigMap(newCm);
    decision := if configmap == found.value then Skip else Write(configmap);
  }

  /** The meaning of a refresh that nothing interferes with. */
  function Apply(op: Op, data: Option<Data>): Option<Data> {
    match Decide(data, op)
    case Write(new_) => Some(new_)
    case _ => data
  }

  /** Whatever it decides, a refresh of a readable ConfigMap leaves the list with the service's entries replaced. */
  lemma ApplyList(op: Op, data: Option<Data>)
    requires ListOf(data).Some?
    ensures ListOf(Apply(op, data)) == Some(NewList(ListOf(data).value, op))
  {
  }

  // ----- The API server and the calls in flight -----

  /** The object in the API server, for a call that is not interrupted. */
  class ConfigMapStore {
    var data: Option<Data>
    var version: nat

    constructor (data: Option<Data>)
      ensures this.data == data && version == 0
    {
      this.data := data;
      version := 0;
    }

    method Get() returns (found: Option<Data>, resourceVersion: nat)
      ensures found == data && resourceVersion == version
    {
      found, resourceVersion := data, version;
    }

    method Update(configmap: Data, resourceVersion: nat) returns (ok: bool)
      modifies this
      ensures ok <==> old(data).Some? && resourceVersion == old(version)
      ensures data == if ok then Some(configmap) else old(data)
      ensures version == old(version) + if ok then 1 else 0
    {
      ok := data.Some? && resourceVersion == version;
      if ok {
        data := Some(configmap);
        version := version + 1;
      }
    }

    /** A call on its own: reads may fail, and an update may be refused for reasons of the server's. */
    method RefreshConfigMap(op: Op, getFails: bool, updateFails: bool)
      modifies this
      ensures data == if getFails || updateFails then old(data) else Apply(op, old(data))
      ensures version == old(version) + if data == old(data) then 0 else 1
    {
      if getFails {
        return;
      }
      var found, resourceVersion := Get();
      var decision := ComputeUpdate(found, op);
      if decision.Write? && !updateFails {
        var _ := Update(decision.data, resourceVersion);
      }
    }
  }

  /** How far a call has come; versions are positions in the history of the object. */
  datatype Phase = Started | Got(at: nat) | Ready(at: nat, data: Data) | Done(outcome: Outcome)

  datatype Outcome = Committed(at: nat) | Skipped(at: nat) | GaveUp(at: nat) | Failed

  datatype Call = Call(op: Op, phase: Phase)

  datatype Author = Initial | ByCall(id: nat) | Outside

  datatype Version = Version(data: Option<Data>, author: Author)

  datatype State = State(history: seq<Version>, calls: seq<Call>)

  /**
   A step of some call or of another client of the API server. A read may return any version the object has had, because
   it goes through a cache. An update fails if the version that was read is no longer current, or for any other reason;
   one that is carried out although its answer is lost is an Update here.
   */
  datatype Event =
    | Begin(op: Op)
    | GetOk(id: nat, at: nat)
    | GetFails(id: nat)
    | Compute(id: nat)
    | Update(id: nat)
    | UpdateFails(id: nat)
    | OtherWrite(data: Option<Data>)

  function Advance(s: State, id: nat, phase: Phase): State
    requires id < |s.calls|
  {
    s.(calls := s.calls[id := s.calls[id].(phase := phase)])
  }

  /** A step; an event that is not enabled changes nothing. */
  function Step(s: State, e: Event): State {
    match e
    case Begin(op) => s.(calls := s.calls + [Call(op, Started)])
    case GetOk(id, at) =>
      if id < |s.calls| && s.calls[id].phase.Started? && at < |s.history| then Advance(s, id, Got(at)) else s
    case GetFails(id) =>
      if id < |s.calls| && s.calls[id].phase.Started? then Advance(s, id, Done(Failed)) else s
    case Compute(id) =>
      if id < |s.calls| && s.calls[id].phase.Got? && s.calls[id].phase.at < |s.history| then
        var at := s.calls[id].phase.at;
        match Decide(s.history[at].data, s.calls[id].op)
        case GiveUp => Advance(s, id, Done(GaveUp(at)))
        case Skip => Advance(s, id, Done(Skipped(at)))
        case Write(data) => Advance(s, id, Ready(at, data))
      else
        s
    case Update(id) =>
      if id < |s.calls| && s.calls[id].phase.Ready? then
        if s.calls[id].phase.at == |s.history| - 1 then
          var written := Version(Some(s.calls[id].phase.data), ByCall(id));
          Advance(s, id, Done(Committed(|s.history|))).(history := s.history + [written])
        else
          Advance(s, id, Done(Failed))
      else
        s
    case UpdateFails(id) =>
      if id < |s.calls| && s.calls[id].phase.Ready? then Advance(s, id, Done(Failed)) else s
    case OtherWrite(data) => s.(history := s.history + [Version(data, Outside)])
  }

  function Start(data: Option<Data>): State {
    State([Version(data, Initial)], [])
  }

  /** A run of events from a first state of the object. */
  function Run(data: Option<Data>, events: seq<Event>): (s: State)
    ensures |s.history| > 0
  {
    if events == [] then Start(data) else Step(Run(data, events[..|events| - 1]), events[|events| - 1])
  }

  /** What a call has established when it is in a phase. */
  ghost predicate CallOk(s: State, id: nat)
    requires id < |s.calls|
  {
    var op := s.calls[id].op;
    match s.calls[id].phase
    case Started => true
    case Got(at) => at < |s.history|
    case Ready(at, data) => at < |s.history| && Decide(s.history[at].data, op) == Write(data)
    case Done(Committed(at)) => 0 < at < |s.history| && s.history[at].author == ByCall(id)
    case Done(Skipped(at)) => at < |s.history| && Decide(s.history[at].data, op) == Skip
    case Done(GaveUp(at)) => at < |s.history| && Decide(s.history[at].data, op) == GiveUp
    case Done(Failed) => true
  }

  /** A version written by a call is that call's refresh of the version before it. */
  ghost predicate VersionOk(s: State, at: nat)
    requires at < |s.history|
  {
    match s.history[at].author
    case Initial => at == 0
    case Outside => at > 0
    case ByCall(id) =>
      && at > 0 && id < |s.calls|
      && s.calls[id].phase == Done(Committed(at))
      && s.history[at].data == Apply(s.calls[id].op, s.history[at - 1].data)
  }

  ghost predicate Inv(s: State) {
    && |s.history| > 0
    && (forall id :: 0 <= id < |s.calls| ==> CallOk(s, id))
    && (forall at :: 0 <= at < |s.history| ==> VersionOk(s, at))
  }

  lemma StepKeepsCall(s: State, e: Event, id: nat)
    requires Inv(s) && id < |Step(s, e).calls|
    ensures CallOk(Step(s, e), id)
  {
    hide Decide, VersionOk;
    assert id < |s.calls| ==> CallOk(s, id);
  }

  lemma StepKeepsVersion(s: State, e: Event, at: nat)
    requires Inv(s) && at < |Step(s, e).history|
    ensures VersionOk(Step(s, e), at)
  {
    hide Decide;
    if at < |s.history| {
      assert VersionOk(s, at);
    } else if e.Update? {
      assert CallOk(s, e.id);
    }
  }

  /** A step keeps the invariant; it never rewrites history. */
  lemma StepKeepsInv(s: State, e: Event)
    requires Inv(s)
    ensures Inv(Step(s, e)) && s.history <= Step(s, e).history
  {
    hide CallOk, VersionOk, Decide;
    var t := Step(s, e);
    forall id | 0 <= id < |t.calls|
      ensures CallOk(t, id)
    {
      StepKeepsCall(s, e, id);
    }
    forall at | 0 <= at < |t.history|
      ensures VersionOk(t, at)
    {
      StepKeepsVersion(s, e, at);
    }
  }

  function Current(s: State): Option<Data>
    requires |s.history| > 0
  {
    s.history[|s.history| - 1].data
  }

  lemma {:induction false} RunKeepsInv(data: Option<Data>, events: seq<Event>)
    ensures Inv(Run(data, events))
    ensures Run(data, events).history[0].data == data
  {
    if events != [] {
      RunKeepsInv(data, events[..|events| - 1]);
      StepKeepsInv(Run(data, events[..|events| - 1]), events[|events| - 1]);
    }
  }

  /** What is written is one document under one name, in the domain of the rate-limit service. */
  lemma WrittenMeaning(found: Option<Data>, op: Op, data: Data)
    requires Decide(found, op) == Write(data)
    ensures data.Keys == {"config.yaml"} && data["config.yaml"].Document?
    ensures data["config.yaml"].config.domain == "slime"
    ensures Some(data) != found && ListOf(Some(data)).Some?
  {
  }

  /** A ConfigMap that is not there, lacks the document, or holds one that cannot be read is left as it is. */
  lemma UnreadableIsLeft(op: Op, data: Option<Data>)
    requires data.None? || "config.yaml" !in data.value || data.value["config.yaml"].Garbled?
    ensures Apply(op, data) == data
  {
  }
}
