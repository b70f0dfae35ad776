/** The rates of a limit: the token bucket of a local limit and the entry of a global one in the rate-limit service. */
module RateLimits {
  import opened Text
  import opened Limiter
  import opened Descriptors

  datatype TokenBucket = TokenBucket(maxTokens: uint32, tokensPerFill: uint32, fillInterval: Duration)

  datatype RateLimit = RateLimit(requestsPerUnit: uint32, unit: string)

  datatype RlsEntry = RlsEntry(key: string, value: string, rateLimit: RateLimit)

  /** The conversion uint32(n). */
  function ToUint32(n: int64): uint32 {
    n % U32
  }

  /** A quota that is no number counts as 0, one out of range as the nearest 64-bit number. */
  function BucketOf(action: Action): TokenBucket {
    var tokens := ToUint32(Atoi(action.quota).value);
    TokenBucket(tokens, tokens, action.fillInterval)
  }

  /** The rate-limit service counts per day, hour, minute or second only. */
  function UnitOf(seconds: int64): Option<string> {
    if seconds == 60 * 60 * 24 then Some("DAY")
    else if seconds == 60 * 60 then Some("HOUR")
    else if seconds == 60 then Some("MINUTE")
    else if seconds == 1 then Some("SECOND")
    else None
  }

  /** How many requests per which unit, if the action can be told to the rate-limit service. */
  function QuotaPerUnit(action: Action): Option<(int64, string)> {
    var quota := Atoi(action.quota);
    var unit := UnitOf(action.fillInterval.seconds);
    if quota.ok && unit.Some? then Some((quota.value, unit.value)) else None
  }

  /** The limit can be told to the rate-limit service. */
  predicate Expressible(d: Descriptor) {
    d.action.Some? && QuotaPerUnit(d.action.value).Some?
  }

  function RlsEntryOf(naming: Naming, d: Descriptor): RlsEntry
    requires Expressible(d)
  {
    var rate := QuotaPerUnit(d.action.value).value;
    RlsEntry(DescriptorKey(d), naming(d), RateLimit(ToUint32(rate.0), rate.1))
  }

  /** Entries are generated up to the first limit that cannot be expressed, and for none after it. */
  method GenerateGlobalRateLimitDescriptor(naming: Naming, descriptors: seq<Descriptor>)
    returns (desc: seq<RlsEntry>)
    requires forall d :: d in descriptors ==> d.action.Some?
    ensures |desc| <= |descriptors|
    ensures forall i :: 0 <= i < |desc| ==> Expressible(descriptors[i]) && desc[i] == RlsEntryOf(naming, descriptors[i])
    ensures |desc| < |descriptors| ==> !Expressible(descriptors[|desc|])
  {
    desc := [];
    for i := 0 to |descriptors|
      invariant |desc| == i
      invariant forall j :: 0 <= j < i ==> Expressible(descriptors[j]) && desc[j] == RlsEntryOf(naming, descriptors[j])
    {
      var d := descriptors[i];
      var rate := QuotaPerUnit(d.action.value);
      if rate.None? {
        return;
      }
      var key := HEADER_VALUE_MATCH;
      if |d.matches| == 0 {
        key := GENERIC_KEY;
      }
      var limit := RateLimit(ToUint32(rate.value.0), rate.value.1);
      desc := desc + [RlsEntry(key, naming(d), limit)];
    }
  }

  /** The entries of a list of global limits, as the loop above leaves them. */
  ghost function RlsEntries(naming: Naming, descriptors: seq<Descriptor>): (desc: seq<RlsEntry>)
  {
    if descriptors == [] || !Expressible(descriptors[0]) then
      []
    else
      [RlsEntryOf(naming, descriptors[0])] + RlsEntries(naming, descriptors[1..])
  }

  /** The loop's contract has one solution. */
  lemma {:induction false} RlsEntriesUnique(naming: Naming, descriptors: seq<Descriptor>, desc: seq<RlsEntry>)
    requires |desc| <= |descriptors|
    requires forall i :: 0 <= i < |desc| ==>
      Expressible(descriptors[i]) && desc[i] == RlsEntryOf(naming, descriptors[i])
    requires |desc| < |descriptors| ==> !Expressible(descriptors[|desc|])
    ensures desc == RlsEntries(naming, descriptors)
  {
    if desc != [] {
      RlsEntriesUnique(naming, descriptors[1..], desc[1..]);
    }
  }

  /** When every interval is one the service can express, no limit is lost. */
  lemma {:induction false} RlsEntriesComplete(naming: Naming, descriptors: seq<Descriptor>)
    requires forall i :: 0 <= i < |descriptors| ==> Expressible(descriptors[i])
    ensures |RlsEntries(naming, descriptors)| == |descriptors|
    ensures forall i :: 0 <= i < |descriptors| ==>
      RlsEntries(naming, descriptors)[i] == RlsEntryOf(naming, descriptors[i])
  {
    if descriptors != [] {
      RlsEntriesComplete(naming, descriptors[1..]);
    }
  }

  lemma {:induction false} RlsEntriesArePrefix(naming: Naming, descriptors: seq<Descriptor>)
    ensures var entries := RlsEntries(naming, descriptors);
      && |entries| <= |descriptors|
      && (forall i :: 0 <= i < |entries| ==>
        Expressible(descriptors[i]) && entries[i] == RlsEntryOf(naming, descriptors[i]))
      && (|entries| < |descriptors| ==> !Expressible(descriptors[|entries|]))
  {
    if descriptors != [] && Expressible(descriptors[0]) {
      RlsEntriesArePrefix(naming, descriptors[1..]);
    }
  }

  /** The length of a unit of the rate-limit service. */
  function UnitSeconds(unit: string): int {
    match unit
    case "SECOND" => 1
    case "MINUTE" => 60
    case "HOUR" => 3600
    case "DAY" => 86400
    case _ => 0
  }

  /** The unit lasts exactly as long as the interval, and the four intervals are the only ones with a unit. */
  lemma UnitLasts(seconds: int64)
    ensures UnitOf(seconds).Some? <==> seconds in {1, 60, 3600, 86400}
    ensures UnitOf(seconds).Some? ==> UnitSeconds(UnitOf(seconds).value) == seconds
  {
  }

  /** A quota printed by the evaluator reaches the bucket and the rate-limit service as itself modulo 2^32. */
  lemma PrintedQuota(quota: int64, action: Action)
    requires action.quota == FormatInt(quota)
    ensures BucketOf(action) == TokenBucket(quota % U32, quota % U32, action.fillInterval)
    ensures QuotaPerUnit(action).Some? <==> action.fillInterval.seconds in {1, 60, 3600, 86400}
    ensures QuotaPerUnit(action).Some? ==>
      && QuotaPerUnit(action).value.0 == quota
      && UnitSeconds(QuotaPerUnit(action).value.1) == action.fillInterval.seconds
    ensures 0 <= quota < U32 ==> BucketOf(action).maxTokens == quota
  {
    AtoiOfPrinted(quota);
    UnitLasts(action.fillInterval.seconds);
  }
}
