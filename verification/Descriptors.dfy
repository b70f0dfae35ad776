/** The name under which a limit is known to Envoy and to the rate-limit service, and who owns it. */
module Descriptors {
  import opened Text
  import opened Limiter

  /** What a limit is called: the service it belongs to and a checksum. */
  function Name(name: string, namespace: string, id: nat): string {
    "Service[" + name + "." + namespace + "]-User[none]-Id[" + FormatNat(id) + "]"
  }

  function DescriptorValue(sum: Checksum, d: Descriptor, loc: Location): string {
    Name(loc.name, loc.namespace, sum(d, loc))
  }

  /** What every limit of a service is called; the parts that only pass names along take this as a parameter. */
  type Naming = Descriptor -> string

  function NamingOf(sum: Checksum, loc: Location): Naming {
    d => DescriptorValue(sum, d, loc)
  }

  /** The key Envoy gives to the descriptor of a route action: it depends on whether headers are matched. */
  function DescriptorKey(d: Descriptor): string {
    if d.matches == [] then GENERIC_KEY else HEADER_VALUE_MATCH
  }

  /** The substring test by which a refresh recognises the entries of a service. */
  predicate Claims(loc: Location, value: string) {
    Contains(value, loc.name + "." + loc.namespace)
  }

  /** Names of services and namespaces hold none of the characters that a limit's name uses as punctuation. */
  predicate Plain(s: string) {
    '.' !in s && '[' !in s && ']' !in s
  }

  predicate PlainLocation(loc: Location) {
    Plain(loc.name) && Plain(loc.namespace)
  }

  /** A label as section 2.3.1 of RFC 1035 defines it, in lower case. */
  predicate IsLabel(s: string) {
    && 1 <= |s| <= 63
    && 'a' <= s[0] <= 'z'
    && s[|s| - 1] != '-'
    && forall i :: 0 <= i < |s| ==> 'a' <= s[i] <= 'z' || IsDigit(s[i]) || s[i] == '-'
  }

  lemma LabelsArePlain(s: string)
    requires IsLabel(s)
    ensures Plain(s)
  {
  }

  /** What the substring test amounts to for two services. */
  predicate Overlap(loc: Location, other: Location) {
    IsSuffix(loc.name, other.name) && loc.namespace <= other.namespace
  }

  /** The one dot in a limit's name stands between service and namespace. */
  lemma OnlyDot(name: string, namespace: string, id: nat, i: nat)
    requires Plain(name) && Plain(namespace)
    requires i < |Name(name, namespace, id)| && Name(name, namespace, id)[i] == '.'
    ensures i == 8 + |name|
  {
    var head := "Service[" + name;
    var tail := namespace + "]-User[none]-Id[" + FormatNat(id) + "]";
    assert Name(name, namespace, id) == head + "." + tail;
    assert '.' !in FormatNat(id);
    assert '.' !in tail;
  }

  /**
   A service claims a limit of another exactly when its name ends the other's and its namespace begins the other's.
   */
  lemma ClaimsExactly(loc: Location, other: Location, id: nat)
    requires PlainLocation(loc) && PlainLocation(other)
    ensures Claims(loc, Name(other.name, other.namespace, id)) <==> Overlap(loc, other)
  {
    hide Name, OccursAt, Overlap, Plain;
    var value := Name(other.name, other.namespace, id);
    if Claims(loc, value) {
      var i :| 0 <= i <= |value| && OccursAt(value, loc.name + "." + loc.namespace, i);
      ClaimedIsOverlap(loc, other, id, i);
    }
    if Overlap(loc, other) {
      OverlapIsClaimed(loc, other, id);
    }
  }

  lemma OverlapIsClaimed(loc: Location, other: Location, id: nat)
    requires Overlap(loc, other)
    ensures Claims(loc, Name(other.name, other.namespace, id))
  {
    hide FormatNat, Contains, Name;
    var cut := |other.name| - |loc.name|;
    var x, y, rest := other.name[..cut], other.namespace[|loc.namespace|..], "]-User[none]-Id[" + FormatNat(id) + "]";
    var prefix := "Service[";
    assert other.name == x + loc.name && other.namespace == loc.namespace + y;
    NameParts(other, id);
    Regroup(prefix, x, loc.name, loc.namespace, y, rest);
    OccursInMiddle(prefix + x, loc.name + "." + loc.namespace, y + rest);
  }

  lemma NameParts(loc: Location, id: nat)
    ensures Name(loc.name, loc.namespace, id) ==
      "Service[" + loc.name + "." + (loc.namespace + ("]-User[none]-Id[" + FormatNat(id) + "]"))
  {
    hide FormatNat;
  }

  lemma Regroup(prefix: string, x: string, n: string, ns: string, y: string, rest: string)
    ensures prefix + (x + n) + "." + ((ns + y) + rest) == (prefix + x) + (n + "." + ns) + (y + rest)
  {
  }

  lemma OccursInMiddle(a: string, t: string, b: string)
    ensures Contains(a + t + b, t)
  {
    assert OccursAt(a + t + b, t, |a|);
  }

  lemma ClaimedIsOverlap(loc: Location, other: Location, id: nat, i: nat)
    requires PlainLocation(loc) && PlainLocation(other)
    requires OccursAt(Name(other.name, other.namespace, id), loc.name + "." + loc.namespace, i)
    ensures Overlap(loc, other)
  {
    var head := "Service[" + other.name;
    var rest := "]-User[none]-Id[" + FormatNat(id) + "]";
    var value := Name(other.name, other.namespace, id);
    assert value == head + "." + (other.namespace + rest);
    assert value[i + |loc.name|] == (loc.name + "." + loc.namespace)[|loc.name|];
    OnlyDot(other.name, other.namespace, id, i + |loc.name|);
    AlignAtDot(head, other.namespace + rest, loc.name, loc.namespace, i);
    BracketFreeEnd(loc.name, other.name, i);
    BracketFreeStart(loc.namespace, other.namespace, rest);
  }

  lemma AlignAtDot(head: string, tail: string, n: string, ns: string, i: nat)
    requires i + |n| == |head| && |ns| <= |tail|
    requires (head + "." + tail)[i..i + |n + "." + ns|] == n + "." + ns
    ensures head[i..] == n && tail[..|ns|] == ns
  {
    var value := head + "." + tail;
    var window := value[i..i + |n + "." + ns|];
    assert forall k :: 0 <= k < |n| ==> head[i..][k] == window[k] == n[k];
    assert forall k :: 0 <= k < |ns| ==> tail[k] == window[|n| + 1 + k] == ns[k];
  }

  lemma BracketFreeEnd(n: string, name: string, i: nat)
    requires Plain(n) && i <= 8 + |name| && ("Service[" + name)[i..] == n
    ensures IsSuffix(n, name)
  {
    var head := "Service[" + name;
    assert head[7] == '[';
    assert forall k :: i <= k < |head| ==> head[k] == n[k - i] && head[k] != '[';
    assert i >= 8;
    assert n == name[i - 8..];
  }

  lemma BracketFreeStart(ns: string, namespace: string, rest: string)
    requires Plain(ns) && rest != "" && rest[0] == ']'
    requires |ns| <= |namespace + rest| && (namespace + rest)[..|ns|] == ns
    ensures ns <= namespace
  {
    var tail := namespace + rest;
    assert tail[|namespace|] == ']';
    assert forall k :: 0 <= k < |ns| ==> tail[k] == ns[k] && tail[k] != ']';
    assert |ns| <= |namespace|;
    assert ns == namespace[..|ns|];
  }

  /** A service claims every limit of its own. */
  lemma ClaimsOwn(loc: Location, id: nat)
    requires PlainLocation(loc)
    ensures Claims(loc, Name(loc.name, loc.namespace, id))
  {
    ClaimsExactly(loc, loc, id);
  }

  /**
   The test is too coarse for some pairs of labels: a service can claim the limits of another in another namespace.
   */
  lemma ClaimsForeign(id: nat)
    ensures var mine, other := Location("views", "dev"), Location("reviews", "dev-2");
      IsLabel(mine.name) && IsLabel(mine.namespace) && IsLabel(other.name) && IsLabel(other.namespace)
      && mine != other && Claims(mine, Name(other.name, other.namespace, id))
  {
    hide Name, Claims, IsLabel;
    var mine, other := Location("views", "dev"), Location("reviews", "dev-2");
    SampleLabels();
    LabelsArePlain(mine.name);
    LabelsArePlain(mine.namespace);
    LabelsArePlain(other.name);
    LabelsArePlain(other.namespace);
    assert other.name[2..] == mine.name;
    ClaimsExactly(mine, other, id);
  }

  lemma SampleLabels()
    ensures IsLabel("views") && IsLabel("dev") && IsLabel("reviews") && IsLabel("dev-2")
  {
  }

  /** Limits of one service are named apart by their checksums. */
  lemma NameTellsChecksum(name: string, namespace: string, id: nat, id': nat)
    requires Name(name, namespace, id) == Name(name, namespace, id')
    ensures id == id'
  {
    var head := "Service[" + name + "." + namespace + "]-User[none]-Id[";
    var value := Name(name, namespace, id);
    assert value == head + FormatNat(id) + "]" == head + FormatNat(id') + "]";
    assert value[|head|..|value| - 1] == FormatNat(id) && value[|head|..|value| - 1] == FormatNat(id');
    ParseFormatNat(id);
    ParseFormatNat(id');
  }

  /** Limits of two services never have one name, whatever their checksums. */
  lemma NamesTellServices(loc: Location, other: Location, id: nat, id': nat)
    requires PlainLocation(loc) && PlainLocation(other)
    requires Name(loc.name, loc.namespace, id) == Name(other.name, other.namespace, id')
    ensures loc == other && id == id'
  {
    ClaimsOwn(loc, id);
    ClaimsOwn(other, id');
    ClaimsExactly(loc, other, id');
    ClaimsExactly(other, loc, id);
    assert loc.name == other.name && loc.namespace == other.namespace;
    NameTellsChecksum(loc.name, loc.namespace, id, id');
  }

  /** The name as users see it, for a limit of a service a in the namespace b. */
  lemma NameSample()
    ensures Name("a", "b", 207) == "Service[a.b]-User[none]-Id[207]"
  {
    DecimalSample();
    hide FormatNat;
    assert "Service[" + "a" + "." + "b" == "Service[a.b";
    assert "Service[a.b" + "]-User[none]-Id[" + "207" + "]" == "Service[a.b]-User[none]-Id[207]";
  }

  lemma DecimalSample()
    ensures FormatNat(207) == "207"
  {
    assert FormatNat(20) == "20";
  }
}
