/** The vocabulary of the controller: the parts of a SmartLimiter and the constants of its artefacts. */
module Limiter {
  import opened Text

  datatype Option<+T> = None | Some(value: T)

  datatype Location = Location(name: string, namespace: string)

  datatype Duration = Duration(seconds: int64, nanos: int)

  datatype Action = Action(quota: string, fillInterval: Duration, strategy: string)

  datatype HeaderMatcher = HeaderMatcher(
    name: string,
    regexMatch: string,
    exactMatch: string,
    prefixMatch: string,
    suffixMatch: string,
    presentMatch: bool,
    invertMatch: bool,
    isExactMatchEmpty: bool)

  datatype Target = Target(direction: string, port: int, routes: seq<string>, hosts: seq<string>)

  datatype Descriptor = Descriptor(
    condition: string,
    action: Option<Action>,
    matches: seq<HeaderMatcher>,
    target: Option<Target>,
    customKey: string,
    customValue: string)

  /** A set of rate limits is named after a subset of the service; BASE_SET stands for the whole service. */
  datatype SmartLimiterSpec = SmartLimiterSpec(sets: Option<map<string, seq<Descriptor>>>, rls: string)

  datatype Subset = Subset(name: string, labels: map<string, string>)

  /** The checksum of a descriptor's printed form and its location (Adler-32). */
  type Checksum = (Descriptor, Location) -> uint32

  const BASE_SET := "_base"
  const INBOUND := "inbound"
  const OUTBOUND := "outbound"
  const ALLOW_ALL_PORT := ""
  const INBOUND_DEFAULT_ROUTE := "default"
  const GENERIC_KEY := "generic_key"
  const HEADER_VALUE_MATCH := "header_match"
  const GLOBAL_SMART_LIMITER := "global"
  const RATE_LIMIT_SERVICE := "outbound|18081||rate-limit.istio-system.svc.cluster.local"
  const DOMAIN := "slime"
  const CONFIG_MAP_CONFIG := "config.yaml"

  /** Limits with a custom key are left to a plugin of the user's: no route action is generated for them. */
  predicate IsCustom(d: Descriptor) {
    d.customKey != "" && d.customValue != ""
  }

  predicate IsGlobal(d: Descriptor) {
    d.action.Some? && d.action.value.strategy == GLOBAL_SMART_LIMITER
  }

  predicate IsLocal(d: Descriptor) {
    d.action.Some? && d.action.value.strategy != GLOBAL_SMART_LIMITER
  }
}
