/** The rate-limited work queue of the secret controller and its bounded retries. */
module WorkQueue {
  import opened Limiter

  const MAX_RETRIES := 3

  /**
   The items that wait their turn in order, the items to be processed, the one being processed, the items whose retry is
   delayed, and how often each item has been put back since it was forgotten.
   */
  datatype Queue = Queue(
    order: seq<string>,
    dirty: set<string>,
    processing: Option<string>,
    waiting: set<string>,
    requeues: multiset<string>)

  const EMPTY_QUEUE := Queue([], {}, None, {}, multiset{})

  /** An item that is to be processed already is not added again; one being processed has to wait until that is over. */
  function Add(q: Queue, k: string): Queue {
    if k in q.dirty then q
    else q.(dirty := q.dirty + {k}, order := if q.processing == Some(k) then q.order else q.order + [k])
  }

  function AddRateLimited(q: Queue, k: string): Queue {
    q.(waiting := q.waiting + {k}, requeues := q.requeues + multiset{k})
  }

  function Forget(q: Queue, k: string): Queue {
    q.(requeues := q.requeues[k := 0])
  }

  function Get(q: Queue): Queue
    requires q.order != [] && q.processing.None?
  {
    q.(order := q.order[1..], dirty := q.dirty - {q.order[0]}, processing := Some(q.order[0]))
  }

  function Done(q: Queue): Queue
    requires q.processing.Some?
  {
    var k := q.processing.value;
    q.(processing := None, order := if k in q.dirty then q.order + [k] else q.order)
  }

  /** The delay of a retry is over. */
  function Fire(q: Queue, k: string): Queue
    requires k in q.waiting
  {
    Add(q.(waiting := q.waiting - {k}), k)
  }

  /** Success and the last failure forget the item, any other failure puts it back. */
  function Finish(q: Queue, fails: bool): Queue
    requires q.processing.Some?
  {
    var k := q.processing.value;
    Done(if fails && q.requeues[k] < MAX_RETRIES then AddRateLimited(q, k) else Forget(q, k))
  }

  function Pending(q: Queue): set<string> {
    q.dirty + q.waiting + if q.processing.Some? then {q.processing.value} else {}
  }

  ghost predicate Inv(q: Queue) {
    && (forall i, j :: 0 <= i < j < |q.order| ==> q.order[i] != q.order[j])
    && (forall k :: k in q.order <==> k in q.dirty && q.processing != Some(k))
    && (forall k :: q.requeues[k] <= MAX_RETRIES)
    && (forall k :: k in q.requeues ==> k in Pending(q))
  }

  /** Four per pending turn of an item, less the retries it has used. */
  ghost function Measure(q: Queue): int {
    (MAX_RETRIES + 1) * (|q.dirty| + |q.waiting| + if q.processing.Some? then 1 else 0) - |q.requeues|
  }

  datatype Event = ExternalAdd(k: string) | Timer(k: string) | Take | Finished(fails: bool)

  predicate Enabled(q: Queue, e: Event) {
    match e
    case ExternalAdd(_) => true
    case Timer(k) => k in q.waiting
    case Take => q.order != [] && q.processing.None?
    case Finished(_) => q.processing.Some?
  }

  /** A step; an event that is not enabled changes nothing. */
  function Step(q: Queue, e: Event): Queue {
    if !Enabled(q, e) then q
    else match e
      case ExternalAdd(k) => Add(q, k)
      case Timer(k) => Fire(q, k)
      case Take => Get(q)
      case Finished(fails) => Finish(q, fails)
  }

  function Run(q: Queue, events: seq<Event>): Queue {
    if events == [] then q else Step(Run(q, events[..|events| - 1]), events[|events| - 1])
  }

  lemma AddKeepsInv(q: Queue, k: string)
    requires Inv(q)
    ensures Inv(Add(q, k)) && Add(q, k).requeues == q.requeues
  {
  }

  lemma FinishKeepsInv(q: Queue, fails: bool)
    requires Inv(q) && q.processing.Some?
    ensures Inv(Finish(q, fails))
  {
    var k, r := q.processing.value, Finish(q, fails);
    forall x
      ensures r.requeues[x] <= MAX_RETRIES
      ensures x in r.requeues ==> x in Pending(r)
    {
      assert q.requeues[x] <= MAX_RETRIES;
      assert x in q.requeues ==> x in Pending(q);
    }
  }

  lemma GetKeepsInv(q: Queue)
    requires Inv(q) && q.order != [] && q.processing.None?
    ensures Inv(Get(q))
  {
    var r, head := Get(q), q.order[0];
    forall k
      ensures k in r.order <==> k in r.dirty && r.processing != Some(k)
    {
      assert q.order == [head] + r.order;
      assert k in q.order <==> k == head || k in r.order;
    }
    assert Pending(r) == Pending(q) by {
      assert head in q.order;
    }
  }

  lemma TimerKeepsInv(q: Queue, k: string)
    requires Inv(q) && k in q.waiting
    ensures Inv(Fire(q, k))
  {
    var r := Fire(q, k);
    assert Pending(r) == Pending(q);
  }

  /** Every step keeps the queue consistent; in particular no item is ever put back more often than MAX_RETRIES. */
  lemma StepKeepsInv(q: Queue, e: Event)
    requires Inv(q)
    ensures Inv(Step(q, e))
  {
    if Enabled(q, e) {
      match e {
        case ExternalAdd(k) => AddKeepsInv(q, k);
        case Timer(k) => TimerKeepsInv(q, k);
        case Take => GetKeepsInv(q);
        case Finished(fails) => FinishKeepsInv(q, fails);
      }
    }
  }

  lemma {:induction false} CardinalityBound(m: multiset<string>, s: set<string>, n: nat)
    requires forall k :: m[k] <= n
    requires forall k :: k in m ==> k in s
    ensures |m| <= n * |s|
    decreases |s|
  {
    if s == {} {
      assert m == multiset{};
    } else {
      var k :| k in s;
      var rest := m[k := 0];
      CardinalityBound(rest, s - {k}, n);
      assert |m| == |rest| + m[k];
      assert n * |s| == n * (|s| - 1) + n;
    }
  }

  lemma UnionBound(a: set<string>, b: set<string>)
    ensures |a + b| <= |a| + |b|
  {
    assert |a + b| == |a| + |b| - |a * b|;
  }

  /** The measure is at least the number of pending turns, so it is never negative. */
  lemma MeasureBound(q: Queue)
    requires Inv(q)
    ensures Measure(q) >= |q.dirty| + |q.waiting| + (if q.processing.Some? then 1 else 0)
  {
    var current := if q.processing.Some? then {q.processing.value} else {};
    CardinalityBound(q.requeues, Pending(q), MAX_RETRIES);
    UnionBound(q.dirty, q.waiting);
    UnionBound(q.dirty + q.waiting, current);
    assert |current| == if q.processing.Some? then 1 else 0;
  }

  /**
   Being done with an item lowers the measure, whether it succeeded, is retried, is already waiting, or is given up.
   */
  lemma FinishLowersMeasure(q: Queue, fails: bool)
    requires Inv(q) && q.processing.Some?
    ensures Measure(Finish(q, fails)) < Measure(q)
  {
    var k := q.processing.value;
    assert q.requeues[k] <= MAX_RETRIES;
    if fails && q.requeues[k] < MAX_RETRIES {
      assert |q.waiting + {k}| <= |q.waiting| + 1 by {
        UnionBound(q.waiting, {k});
      }
    } else {
      assert |q.requeues[k := 0]| == |q.requeues| - q.requeues[k];
    }
  }

  /** The other steps of the queue's own do not raise it; they move what is pending forward. */
  lemma InternalStepsKeepMeasure(q: Queue, e: Event)
    requires Inv(q) && Enabled(q, e) && (e.Timer? || e.Take?)
    ensures Measure(Step(q, e)) <= Measure(q)
    ensures e.Timer? ==> |Step(q, e).waiting| < |q.waiting|
    ensures e.Take? ==> Step(q, e).waiting == q.waiting && |Step(q, e).order| < |q.order|
  {
    match e {
      case Timer(k) =>
        var less := q.waiting - {k};
        assert |less| == |q.waiting| - 1;
        if k !in q.dirty {
          assert |q.dirty + {k}| == |q.dirty| + 1;
        }
      case Take =>
        assert q.order[0] in q.order;
        assert |q.dirty - {q.order[0]}| == |q.dirty| - 1;
    }
  }

  /** How many items were processed in a run. */
  function Processed(q: Queue, events: seq<Event>): nat {
    if events == [] then
      0
    else
      var init, last := events[..|events| - 1], events[|events| - 1];
      Processed(q, init) + if last.Finished? && Enabled(Run(q, init), last) then 1 else 0
  }

  function ExternalAdds(events: seq<Event>): nat {
    if events == [] then 0
    else ExternalAdds(events[..|events| - 1]) + if events[|events| - 1].ExternalAdd? then 1 else 0
  }

  lemma ExternalAddRaises(q: Queue, k: string)
    ensures Measure(Add(q, k)) <= Measure(q) + MAX_RETRIES + 1
  {
    if k !in q.dirty {
      assert |q.dirty + {k}| == |q.dirty| + 1;
    }
  }

  /**
   The number of processings is bounded by the measure at the start and four for every add from outside, however often
   processing fails: without further adds the worker comes to an end.
   */
  lemma {:induction false} BoundedProcessing(q: Queue, events: seq<Event>)
    requires Inv(q)
    ensures Inv(Run(q, events))
    ensures Processed(q, events) + Measure(Run(q, events)) <= Measure(q) + (MAX_RETRIES + 1) * ExternalAdds(events)
    ensures Processed(q, events) <= Measure(q) + 4 * ExternalAdds(events)
  {
    if events != [] {
      var init, last := events[..|events| - 1], events[|events| - 1];
      BoundedProcessing(q, init);
      var before := Run(q, init);
      StepKeepsInv(before, last);
      if Enabled(before, last) {
        if last.Finished? {
          FinishLowersMeasure(before, last.fails);
        } else if last.ExternalAdd? {
          ExternalAddRaises(before, last.k);
        } else {
          InternalStepsKeepMeasure(before, last);
        }
      }
    }
    MeasureBound(Run(q, events));
  }

  /** When the queue itself can do nothing more, nothing is pending and nothing is remembered of retries. */
  lemma IdleIsDrained(q: Queue)
    requires Inv(q)
    requires forall e :: Enabled(q, e) ==> e.ExternalAdd?
    ensures Pending(q) == {} && q.requeues == multiset{}
  {
    assert !Enabled(q, Take) && !Enabled(q, Finished(true));
    forall k
      ensures k !in q.waiting
    {
      assert !Enabled(q, Timer(k));
    }
    assert forall k :: k in q.dirty ==> k in q.order;
    assert q.dirty == {} && q.waiting == {};
    forall k
      ensures k !in q.requeues
    {
      assert k in q.requeues ==> k in Pending(q);
    }
  }

  /** The number of times an item was put back since it was last forgotten. */
  function RetriesSinceForgotten(q: Queue, events: seq<Event>, k: string): nat {
    if events == [] then
      q.requeues[k]
    else
      var init, last := events[..|events| - 1], events[|events| - 1];
      var before := Run(q, init);
      if last.Finished? && before.processing == Some(k) then
        if last.fails && before.requeues[k] < MAX_RETRIES then RetriesSinceForgotten(q, init, k) + 1 else 0
      else
        RetriesSinceForgotten(q, init, k)
  }

  lemma {:induction false} RunKeepsInv(q: Queue, events: seq<Event>)
    requires Inv(q)
    ensures Inv(Run(q, events))
  {
    if events != [] {
      RunKeepsInv(q, events[..|events| - 1]);
      StepKeepsInv(Run(q, events[..|events| - 1]), events[|events| - 1]);
    }
  }

  /**
   In every run, adds from outside included, an item is put back at most MAX_RETRIES times between two times it is
   forgotten.
   */
  lemma {:induction false} RetriesBounded(q: Queue, events: seq<Event>, k: string)
    requires Inv(q)
    ensures RetriesSinceForgotten(q, events, k) == Run(q, events).requeues[k] <= 3
  {
    RunKeepsInv(q, events);
    if events != [] {
      RetriesBounded(q, events[..|events| - 1], k);
    }
  }

  /** One attempt that fails, and the end of the delay if there is one. */
  function Attempt(q: Queue, k: string): Queue {
    Step(Step(Step(q, Take), Finished(true)), Timer(k))
  }

  /** An item on its own in the queue that has been put back some times. */
  function OnlyItem(k: string, retries: nat): Queue {
    Queue([k], {k}, None, {}, multiset{}[k := retries])
  }

  /** An item that keeps failing gets exactly four attempts, and is then forgotten. */
  lemma FourAttempts(k: string)
    ensures Step(EMPTY_QUEUE, ExternalAdd(k)) == OnlyItem(k, 0)
    ensures Attempt(Attempt(Attempt(OnlyItem(k, 0), k), k), k) == OnlyItem(k, 3)
    ensures Attempt(OnlyItem(k, 3), k) == EMPTY_QUEUE
  {
    assert multiset{}[k := 0] == multiset{};
    OneAttempt(k, 0);
    OneAttempt(k, 1);
    OneAttempt(k, 2);
    assert multiset{}[k := 3][k := 0] == multiset{};
  }

  lemma OneAttempt(k: string, retries: nat)
    requires retries < 3
    ensures Attempt(OnlyItem(k, retries), k) == OnlyItem(k, retries + 1)
  {
    assert multiset{}[k := retries] + multiset{k} == multiset{}[k := retries + 1];
  }

  /** An item that succeeds is forgotten at once, however often it has been put back. */
  lemma SuccessForgets(k: string, retries: nat)
    ensures Step(Step(OnlyItem(k, retries), Take), Finished(false)) == EMPTY_QUEUE
  {
    assert multiset{}[k := retries][k := 0] == multiset{};
  }
}
