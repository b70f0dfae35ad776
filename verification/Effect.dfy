/**
 What the limits of a spec mean once their templates are evaluated: which of them take effect, how they are reported,
 and what the rate-limit service is told of them. The results say that the generated artefacts follow this.
 */
module Effect {
  import opened Seqs
  import opened Text
  import opened Limiter
  import opened Descriptors
  import opened RateLimits
  import opened EnvoyFilters

  /** A limit takes effect if its condition evaluates to true and its action has a quota that can be evaluated. */
  predicate TakesEffect(ev: Evaluator, d: Descriptor) {
    && ev.condition(d.condition) == Some(true)
    && d.action.Some?
    && ev.quota(d.action.value.quota).Some?
  }

  /** The quota of a limit that takes effect. */
  function QuotaOf(ev: Evaluator, d: Descriptor): int64
    requires TakesEffect(ev, d)
  {
    ev.quota(d.action.value.quota).value
  }

  /** A limit as the status shows it: the quota is a number, there is no condition, and custom keys are gone. */
  function AsReported(ev: Evaluator, d: Descriptor): Descriptor {
    if TakesEffect(ev, d) then
      var action := Action(FormatInt(QuotaOf(ev, d)), d.action.value.fillInterval, d.action.value.strategy);
      Descriptor("", Some(action), d.matches, d.target, "", "")
    else
      d
  }

  function Reported(ev: Evaluator): Descriptor -> Descriptor {
    d => AsReported(ev, d)
  }

  function InEffect(ev: Evaluator): Descriptor -> bool {
    d => TakesEffect(ev, d)
  }

  predicate IsGlobalInEffect(ev: Evaluator, d: Descriptor) {
    TakesEffect(ev, d) && d.action.value.strategy == "global"
  }

  /** Limits that take effect and count for all pods of a service together. */
  function GlobalInEffect(ev: Evaluator): Descriptor -> bool {
    d => IsGlobalInEffect(ev, d)
  }

  /** The interval is a second, a minute, an hour or a day. */
  predicate IsTellable(d: Descriptor) {
    d.action.Some? && d.action.value.fillInterval.seconds in {1, 60, 3600, 86400}
  }

  /** The entry that tells the service of a limit: so many requests, modulo 2^32, in a unit as long as the interval. */
  predicate IsToldAs(naming: Naming, ev: Evaluator, d: Descriptor, e: RlsEntry) {
    && IsGlobalInEffect(ev, d)
    && e.key == (if d.matches == [] then "generic_key" else "header_match")
    && e.value == naming(AsReported(ev, d))
    && e.rateLimit.requestsPerUnit == QuotaOf(ev, d) % 0x1_0000_0000
    && UnitSeconds(e.rateLimit.unit) == d.action.value.fillInterval.seconds
  }

  /** Evaluation keeps exactly the limits that take effect. */
  lemma EvaluatedExactly(ev: Evaluator, d: Descriptor)
    ensures Evaluated(ev, d) == if TakesEffect(ev, d) then [AsReported(ev, d)] else []
  {
  }

  /** So the limits of a set are reported in order, those that do not take effect being left out. */
  lemma {:induction false} ValidExactly(ev: Evaluator, descriptors: seq<Descriptor>)
    ensures Valid(ev, descriptors) == Map(Reported(ev), Filter(InEffect(ev), descriptors))
  {
    hide Evaluated, AsReported, TakesEffect;
    if descriptors != [] {
      ValidExactly(ev, descriptors[1..]);
      EvaluatedExactly(ev, descriptors[0]);
      var head := if TakesEffect(ev, descriptors[0]) then [descriptors[0]] else [];
      MapAppend(Reported(ev), head, Filter(InEffect(ev), descriptors[1..]));
    }
  }

  /** The global ones among them. */
  lemma {:induction false} GlobalsReported(ev: Evaluator, descriptors: seq<Descriptor>)
    ensures Filter(IsGlobal, Valid(ev, descriptors)) == Map(Reported(ev), Filter(GlobalInEffect(ev), descriptors))
  {
    hide Evaluated;
    if descriptors != [] {
      var d := descriptors[0];
      GlobalsReported(ev, descriptors[1..]);
      EvaluatedExactly(ev, d);
      FilterAppend(IsGlobal, Evaluated(ev, d), Valid(ev, descriptors[1..]));
      GlobalReported(ev, d);
      var head := if IsGlobalInEffect(ev, d) then [d] else [];
      MapAppend(Reported(ev), head, Filter(GlobalInEffect(ev), descriptors[1..]));
    }
  }

  lemma GlobalReported(ev: Evaluator, d: Descriptor)
    ensures Filter(IsGlobal, Evaluated(ev, d)) == if IsGlobalInEffect(ev, d) then [AsReported(ev, d)] else []
  {
    EvaluatedExactly(ev, d);
    assert TakesEffect(ev, d) ==> (IsGlobal(AsReported(ev, d)) <==> IsGlobalInEffect(ev, d));
  }

  /** A limit in effect can be told of exactly if its interval is one of the four, and then as it is. */
  lemma EntryMeaning(naming: Naming, ev: Evaluator, d: Descriptor)
    requires IsGlobalInEffect(ev, d)
    ensures Expressible(AsReported(ev, d)) <==> IsTellable(d)
    ensures Expressible(AsReported(ev, d)) ==> IsToldAs(naming, ev, d, RlsEntryOf(naming, AsReported(ev, d)))
  {
    PrintedQuota(QuotaOf(ev, d), AsReported(ev, d).action.value);
  }

  /**
   What the service is told of a set: one entry for each global limit in effect, in order, with its rate, up to the
   first whose interval the service does not know.
   */
  lemma ToldExactly(naming: Naming, ev: Evaluator, descriptors: seq<Descriptor>)
    ensures var shared := Filter(GlobalInEffect(ev), descriptors);
      var entries := RlsEntries(naming, Filter(IsGlobal, Valid(ev, descriptors)));
      && |entries| <= |shared|
      && (forall i :: 0 <= i < |entries| ==> IsToldAs(naming, ev, shared[i], entries[i]))
      && (|entries| < |shared| ==> IsGlobalInEffect(ev, shared[|entries|]) && !IsTellable(shared[|entries|]))
  {
    hide AsReported, Valid, Expressible, RlsEntryOf, IsToldAs;
    var shared := Filter(GlobalInEffect(ev), descriptors);
    var reported := Map(Reported(ev), shared);
    GlobalsReported(ev, descriptors);
    RlsEntriesArePrefix(naming, reported);
    InFilter(GlobalInEffect(ev), descriptors);
    forall i | 0 <= i < |shared|
      ensures IsGlobalInEffect(ev, shared[i]) && reported[i] == AsReported(ev, shared[i])
      ensures Expressible(reported[i]) <==> IsTellable(shared[i])
      ensures Expressible(reported[i]) ==> IsToldAs(naming, ev, shared[i], RlsEntryOf(naming, reported[i]))
    {
      assert shared[i] in shared;
      EntryMeaning(naming, ev, shared[i]);
    }
  }
}
