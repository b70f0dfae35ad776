/** Refreshes of the shared ConfigMap are serialisable, whatever the interleaving. */
module Serial {
  import opened Limiter
  import opened Seqs
  import opened RlsConfigMap

  /** One entry of a serial order: a call of refreshConfigMap, or a write by another client. */
  datatype Item = OfCall(id: nat) | OfOther(data: Option<Data>)

  function Effect(calls: seq<Call>, item: Item, data: Option<Data>): Option<Data> {
    match item
    case OfCall(id) => if id < |calls| then Apply(calls[id].op, data) else data
    case OfOther(written) => written
  }

  /** The items one after another, none interrupted. */
  function Replay(calls: seq<Call>, data: Option<Data>, items: seq<Item>): Option<Data> {
    if items == [] then data
    else Effect(calls, items[|items| - 1], Replay(calls, data, items[..|items| - 1]))
  }

  /** The version at which a call takes effect: the one it wrote, or the one it read and left as it was. */
  function EffectAt(call: Call): Option<nat> {
    match call.phase
    case Done(Committed(at)) => Some(at)
    case Done(Skipped(at)) => Some(at)
    case Done(GaveUp(at)) => Some(at)
    case _ => None
  }

  predicate LeavesAt(call: Call, at: nat) {
    call.phase == Done(Skipped(at)) || call.phase == Done(GaveUp(at))
  }

  lemma LeavesUnchanged(s: State, id: nat, at: nat)
    requires Inv(s) && id < |s.calls| && LeavesAt(s.calls[id], at)
    ensures at < |s.history| && Apply(s.calls[id].op, s.history[at].data) == s.history[at].data
  {
    assert CallOk(s, id);
  }

  /** A call, if it read a version and left it as it was. */
  ghost function ReaderAt(s: State, at: nat, id: nat): seq<Item>
    requires id < |s.calls|
  {
    if LeavesAt(s.calls[id], at) then [OfCall(id)] else []
  }

  /** Calls below n that read a version and left it as it was. */
  ghost function Readers(s: State, at: nat, n: nat): seq<Item>
    requires n <= |s.calls|
  {
    if n == 0 then [] else Readers(s, at, n - 1) + ReaderAt(s, at, n - 1)
  }

  ghost function Writer(v: Version): seq<Item> {
    match v.author
    case Initial => []
    case ByCall(id) => [OfCall(id)]
    case Outside => [OfOther(v.data)]
  }

  /** The serial order of a state: version by version, who wrote it and then who read it and left it. */
  ghost function SerialOrder(s: State, n: nat): seq<Item>
    requires n <= |s.history|
  {
    if n == 0 then [] else SerialOrder(s, n - 1) + Writer(s.history[n - 1]) + Readers(s, n - 1, |s.calls|)
  }

  lemma ReplaySnoc(calls: seq<Call>, data: Option<Data>, items: seq<Item>, item: Item)
    ensures Replay(calls, data, items + [item]) == Effect(calls, item, Replay(calls, data, items))
  {
    assert (items + [item])[..|items|] == items;
  }

  lemma ReplayReader(s: State, data: Option<Data>, items: seq<Item>, at: nat, id: nat)
    requires Inv(s) && at < |s.history| && id < |s.calls|
    requires Replay(s.calls, data, items) == s.history[at].data
    ensures Replay(s.calls, data, items + ReaderAt(s, at, id)) == s.history[at].data
  {
    hide Apply, Inv, LeavesAt, Replay;
    if LeavesAt(s.calls[id], at) {
      ReplaySnoc(s.calls, data, items, OfCall(id));
      LeavesUnchanged(s, id, at);
    } else {
      assert items + [] == items;
    }
  }

  lemma {:induction false} ReplayReaders(s: State, data: Option<Data>, items: seq<Item>, at: nat, n: nat)
    requires Inv(s) && at < |s.history| && n <= |s.calls|
    requires Replay(s.calls, data, items) == s.history[at].data
    ensures Replay(s.calls, data, items + Readers(s, at, n)) == s.history[at].data
  {
    hide Inv, ReaderAt, Replay;
    if n == 0 {
      Associate(items, [], []);
    } else {
      ReplayReaders(s, data, items, at, n - 1);
      ReplayReader(s, data, items + Readers(s, at, n - 1), at, n - 1);
      Associate(items, Readers(s, at, n - 1), ReaderAt(s, at, n - 1));
    }
  }

  lemma ReplayWriter(s: State, data: Option<Data>, items: seq<Item>, at: nat)
    requires Inv(s) && 0 < at < |s.history|
    requires Replay(s.calls, data, items) == s.history[at - 1].data
    ensures Replay(s.calls, data, items + Writer(s.history[at])) == s.history[at].data
  {
    hide Replay, Apply, CallOk;
    assert VersionOk(s, at);
    ReplaySnoc(s.calls, data, items, Writer(s.history[at])[0]);
  }

  lemma FirstWriter(s: State)
    requires Inv(s)
    ensures Writer(s.history[0]) == [] && Replay(s.calls, s.history[0].data, []) == s.history[0].data
  {
    assert VersionOk(s, 0);
  }

  /** Replaying the serial order up to a version gives that version. */
  lemma {:induction false} SerialReplay(s: State, n: nat)
    requires Inv(s) && 0 < n <= |s.history|
    ensures Replay(s.calls, s.history[0].data, SerialOrder(s, n)) == s.history[n - 1].data
  {
    hide Readers, Replay, Writer, CallOk, VersionOk;
    var data, at := s.history[0].data, n - 1;
    var before := SerialOrder(s, at);
    if at == 0 {
      FirstWriter(s);
      Associate(before, [], []);
    } else {
      SerialReplay(s, at);
      ReplayWriter(s, data, before, at);
    }
    ReplayReaders(s, data, before + Writer(s.history[at]), at, |s.calls|);
  }

  lemma ReaderCount(s: State, at: nat, k: nat, id: nat)
    requires k < |s.calls|
    ensures multiset(ReaderAt(s, at, k))[OfCall(id)] == if id == k && LeavesAt(s.calls[k], at) then 1 else 0
  {
    hide LeavesAt;
    assert LeavesAt(s.calls[k], at) ==> multiset([OfCall(k)]) == multiset{OfCall(k)};
  }

  lemma {:induction false} ReadersCount(s: State, at: nat, n: nat, id: nat)
    requires n <= |s.calls|
    ensures multiset(Readers(s, at, n))[OfCall(id)] == if id < n && LeavesAt(s.calls[id], at) then 1 else 0
  {
    hide LeavesAt, ReaderAt;
    if n > 0 {
      ReadersCount(s, at, n - 1, id);
      CountAppend(Readers(s, at, n - 1), ReaderAt(s, at, n - 1), OfCall(id));
      ReaderCount(s, at, n - 1, id);
    }
  }

  /** A version was written by a call exactly if the call committed it. */
  lemma WriterCommitted(s: State, at: nat, id: nat)
    requires Inv(s) && at < |s.history|
    ensures s.history[at].author == ByCall(id) <==> id < |s.calls| && s.calls[id].phase == Done(Committed(at))
  {
    assert VersionOk(s, at);
    assert id < |s.calls| ==> CallOk(s, id);
  }

  /** A call occurs once in the order of the versions from its own on, and never before. */
  lemma {:induction false} SerialCount(s: State, n: nat, id: nat)
    requires Inv(s) && n <= |s.history|
    ensures multiset(SerialOrder(s, n))[OfCall(id)] ==
      if id < |s.calls| && EffectAt(s.calls[id]).Some? && EffectAt(s.calls[id]).value < n then 1 else 0
  {
    hide Inv, Readers, SerialOrder, EffectAt;
    if n == 0 {
      SerialOfNone(s);
    } else {
      var c := OfCall(id);
      var before, written, read := multiset(SerialOrder(s, n - 1))[c],
        (if s.history[n - 1].author == ByCall(id) then 1 else 0),
        multiset(Readers(s, n - 1, |s.calls|))[c];
      SerialCount(s, n - 1, id);
      ReadersCount(s, n - 1, |s.calls|, id);
      WriterCommitted(s, n - 1, id);
      SerialStepCount(s, n, id);
      assert multiset(SerialOrder(s, n))[c] == before + written + read;
      if id < |s.calls| {
        EffectCases(s.calls[id], n - 1);
      }
    }
  }

  lemma SerialOfNone(s: State)
    ensures SerialOrder(s, 0) == []
  {
  }

  lemma EffectCases(call: Call, at: nat)
    ensures EffectAt(call) == Some(at) <==> (call.phase == Done(Committed(at)) || LeavesAt(call, at))
    ensures !(call.phase == Done(Committed(at)) && LeavesAt(call, at))
  {
  }

  lemma SerialStepCount(s: State, n: nat, id: nat)
    requires 0 < n <= |s.history|
    ensures multiset(SerialOrder(s, n))[OfCall(id)] ==
      multiset(SerialOrder(s, n - 1))[OfCall(id)]
      + (if s.history[n - 1].author == ByCall(id) then 1 else 0)
      + multiset(Readers(s, n - 1, |s.calls|))[OfCall(id)]
  {
    hide Readers;
    assert multiset(Writer(s.history[n - 1]))[OfCall(id)] == if s.history[n - 1].author == ByCall(id) then 1 else 0;
  }

  lemma {:induction false} SerialPrefix(s: State, m: nat, n: nat)
    requires m <= n <= |s.history|
    ensures SerialOrder(s, m) <= SerialOrder(s, n)
  {
    hide Readers, Writer;
    if m < n {
      SerialPrefix(s, m, n - 1);
      var a, b, c := SerialOrder(s, n - 1), Writer(s.history[n - 1]), Readers(s, n - 1, |s.calls|);
      assert SerialOrder(s, n) == a + b + c;
      assert a <= a + b <= a + b + c;
    }
  }

  /** The call is over and has not failed. */
  ghost predicate Took(call: Call) {
    call.phase.Done? && !call.phase.outcome.Failed?
  }

  lemma TookHasEffect(s: State, id: nat)
    requires Inv(s) && id < |s.calls|
    ensures Took(s.calls[id]) <==> EffectAt(s.calls[id]).Some?
    ensures Took(s.calls[id]) ==> EffectAt(s.calls[id]).value < |s.history|
  {
    assert CallOk(s, id);
  }

  /**
   Serialisability: in every run the ConfigMap is what the calls give that did not fail, one after another, each exactly
   once, together with the writes of others. Calls that are rejected or still under way contribute nothing.
   */
  lemma Serialisable(data: Option<Data>, events: seq<Event>)
    ensures var s := Run(data, events); var order := SerialOrder(s, |s.history|);
      && Replay(s.calls, data, order) == Current(s)
      && forall id: nat :: multiset(order)[OfCall(id)] == if id < |s.calls| && Took(s.calls[id]) then 1 else 0
  {
    hide Run, Inv, SerialOrder, Replay;
    var s := Run(data, events);
    RunKeepsInv(data, events);
    SerialReplay(s, |s.history|);
    forall id: nat
      ensures multiset(SerialOrder(s, |s.history|))[OfCall(id)] == if id < |s.calls| && Took(s.calls[id]) then 1 else 0
    {
      SerialCount(s, |s.history|, id);
      if id < |s.calls| {
        TookHasEffect(s, id);
      }
    }
  }

  /**
   The order respects commits: what takes effect at an earlier version stands in front of what does at a later one.
   */
  lemma CommitOrder(data: Option<Data>, events: seq<Event>, id: nat, at: nat)
    requires var s := Run(data, events); id < |s.calls| && s.calls[id].phase == Done(Committed(at))
    ensures var s := Run(data, events);
      && 0 < at < |s.history|
      && SerialOrder(s, at) + [OfCall(id)] <= SerialOrder(s, |s.history|)
      && s.history[at].data == Apply(s.calls[id].op, s.history[at - 1].data)
  {
    hide Run, Readers, Apply, Decide;
    var s := Run(data, events);
    RunKeepsInv(data, events);
    assert CallOk(s, id);
    assert VersionOk(s, at);
    SerialPrefix(s, at + 1, |s.history|);
    assert SerialOrder(s, at) + [OfCall(id)] <= SerialOrder(s, at + 1);
  }
}
