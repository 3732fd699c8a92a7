/** route.go: turning a Knative Ingress into OpenShift Routes. */
module Resources {
  import opened Wrappers
  import opened GoStrings
  import opened GoFmt
  import opened GoMaps
  import opened Networking
  import opened RouteV1

  const TimeoutAnnotation := "haproxy.router.openshift.io/timeout"
  const DisableRouteAnnotation := "serving.knative.openshift.io/disableRoute"
  const KourierHTTPPort := "http2"

  /** The one error route.go returns. */
  datatype Error = ErrNoValidLoadbalancerDomain {
    function Message(): string {
      "unable to find Ingress LoadBalancer with DomainInternal set"
    }
  }

  /** What `makeRoute` returns: a route, `(nil, nil)`, or `(nil, err)`. */
  datatype RouteResult = Built(route: Route) | Skip | Fail(err: Error)

  // ---------------------------------------------------------------------------
  // routeName and hashHost

  /** A SHA-256 sum. The hash itself is a parameter of the functions that use it. */
  type Digest = s: seq<Byte> | |s| == 32 witness seq(32, _ => 0)

  /** `hashHost`: the first six characters of the hex form of the host's digest,
      that is, the hex form of its first three bytes. */
  function HashHost(sum256: string -> Digest, host: string): (h: string)
    ensures |h| == 6 && IsLowerHex(h)
  {
    Hex(sum256(host))[..6]
  }

  /** The hash is six lower-case hex digits encoding, and decoding to, the first
      three bytes of the digest. */
  lemma HashHostSpec(sum256: string -> Digest, host: string)
    ensures var h := HashHost(sum256, host);
      && |h| == 6 && IsLowerHex(h)
      && h == Hex(sum256(host)[..3])
      && Unhex(h) == sum256(host)[..3]
  {
    HexPrefix(sum256(host), 3);
    UnhexHex(sum256(host)[..3]);
  }

  /** `routeName`: `"route-"`, the uid, `"-"`, then `%x` of the six-character hash
      string, which is twelve hex digits encoding that string's bytes. */
  function RouteName(sum256: string -> Digest, uid: string, host: string): (name: string)
    ensures |name| == |uid| + 19 && name[..|uid| + 7] == "route-" + uid + "-"
  {
    "route-" + uid + "-" + HexString(HashHost(sum256, host))
  }

  /** The shape of a route name: the fixed prefix and the uid, then twelve lower-case
      hex digits that decode to the bytes of `hashHost(host)`. */
  lemma RouteNameFormat(sum256: string -> Digest, uid: string, host: string)
    ensures var name := RouteName(sum256, uid, host);
      && |name| == |uid| + 19
      && name[..|uid| + 7] == "route-" + uid + "-"
      && IsLowerHex(name[|uid| + 7..])
      && Unhex(name[|uid| + 7..]) == AsciiBytes(HashHost(sum256, host))
  {
    var suffix := HexString(HashHost(sum256, host));
    HashHostSpec(sum256, host);
    UnhexHex(AsciiBytes(HashHost(sum256, host)));
    assert ("route-" + uid + "-" + suffix)[|uid| + 7..] == suffix;
  }

  /** Two route names agree exactly when the uids agree and the hosts' digests agree
      in their first three bytes. */
  lemma RouteNameCollision(sum256: string -> Digest, uid1: string, host1: string, uid2: string, host2: string)
    ensures RouteName(sum256, uid1, host1) == RouteName(sum256, uid2, host2)
        <==> uid1 == uid2 && sum256(host1)[..3] == sum256(host2)[..3]
  {
    var n1, n2 := RouteName(sum256, uid1, host1), RouteName(sum256, uid2, host2);
    RouteNameFormat(sum256, uid1, host1);
    RouteNameFormat(sum256, uid2, host2);
    var h1, h2 := HashHost(sum256, host1), HashHost(sum256, host2);
    HashHostSpec(sum256, host1);
    HashHostSpec(sum256, host2);
    if n1 == n2 {
      assert |uid1| == |uid2|;
      assert uid1 == n1[6..|uid1| + 6];
      assert uid2 == n2[6..|uid2| + 6];
      var b1, b2 := AsciiBytes(h1), AsciiBytes(h2);
      assert b1 == b2;
      assert forall i :: 0 <= i < 6 ==> h1[i] as int == b1[i] == b2[i] == h2[i] as int;
      assert h1 == h2;
    }
  }

  /** The twelve-digit suffix is the hex of six ASCII hex digits, so every byte it
      encodes is `0x30`-`0x39` or `0x61`-`0x66`: digits at even positions are `3` or `6`. */
  lemma RouteNameSuffixDigits(sum256: string -> Digest, uid: string, host: string, k: nat)
    requires k < 6
    ensures var suffix := RouteName(sum256, uid, host)[|uid| + 7..];
      (suffix[2 * k] == '3' && '0' <= suffix[2 * k + 1] <= '9')
      || (suffix[2 * k] == '6' && '1' <= suffix[2 * k + 1] <= '6')
  {
    var h := HashHost(sum256, host);
    var suffix := RouteName(sum256, uid, host)[|uid| + 7..];
    var bs := AsciiBytes(h);
    HashHostSpec(sum256, host);
    RouteNameFormat(sum256, uid, host);
    HexUnhex(suffix);
    assert Hex(bs) == suffix;
    HexAt(bs, k);
    var b := bs[k];
    assert IsLowerHexDigit(h[k]) && b == h[k] as int;
    if b < 64 {
      assert 48 <= b <= 57 && b / 16 == 3 && b % 16 <= 9;
    } else {
      assert 97 <= b <= 102 && b / 16 == 6 && 1 <= b % 16 <= 6;
    }
  }

  /** Digits `2k` and `2k+1` of a hex encoding are the two nibbles of byte `k`. */
  lemma {:induction false} HexAt(bs: seq<Byte>, k: nat)
    requires k < |bs|
    ensures Hex(bs)[2 * k] == HexDigit(bs[k] / 16) && Hex(bs)[2 * k + 1] == HexDigit(bs[k] % 16)
  {
    if k > 0 {
      HexAt(bs[1..], k - 1);
    }
  }

  // ---------------------------------------------------------------------------
  // Which (rule, host) pairs get a route

  /** The host filter of `MakeRoutes`: more than two dot-separated labels, and a
      third label other than `svc`. Two-label hosts such as `foo.com` fail it too. */
  predicate IsRouteHost(host: string) {
    var parts := Split(host, '.');
    |parts| > 2 && parts[2] != "svc"
  }

  /** The position of a host: rule index and host index within that rule. */
  datatype Occurrence = Occurrence(rule: nat, host: nat)

  /** Host `j` of rule `i` is given to `makeRoute`. */
  predicate Qualifies(rules: seq<IngressRule>, i: nat, j: nat) {
    && i < |rules|
    && j < |rules[i].hosts|
    && !rules[i].visibility.ClusterLocal?
    && IsRouteHost(rules[i].hosts[j])
  }

  /** Strict rule-then-host order. */
  predicate Before(a: Occurrence, b: Occurrence) {
    a.rule < b.rule || (a.rule == b.rule && a.host < b.host)
  }

  predicate Ordered(occs: seq<Occurrence>) {
    forall k, l :: 0 <= k < l < |occs| ==> Before(occs[k], occs[l])
  }

  /** A point the two loops of `MakeRoutes` reach: host `j` of rule `i`, or just past
      the last rule. */
  predicate IsPosition(rules: seq<IngressRule>, i: nat, j: nat) {
    (i < |rules| && j <= |rules[i].hosts|) || (i == |rules| && j == 0)
  }

  /** The qualifying pairs visited before position `(i, j)`, in visiting order. */
  function OccurrencesBefore(rules: seq<IngressRule>, i: nat, j: nat): seq<Occurrence>
    requires IsPosition(rules, i, j)
    decreases i, j
  {
    if j > 0 then
      if Qualifies(rules, i, j - 1) then OccurrencesBefore(rules, i, j - 1) + [Occurrence(i, j - 1)]
      else OccurrencesBefore(rules, i, j - 1)
    else if i == 0 then []
    else OccurrencesBefore(rules, i - 1, |rules[i - 1].hosts|)
  }

  /** The (rule, host) pairs `MakeRoutes` passes to `makeRoute`, in the order it does. */
  function Occurrences(rules: seq<IngressRule>): (occs: seq<Occurrence>)
    ensures ValidOccurrences(rules, occs)
  {
    OccurrencesBeforeSound(rules, |rules|, 0);
    OccurrencesBefore(rules, |rules|, 0)
  }

  /** Only qualifying pairs before `(i, j)` are listed, in rule-then-host order. */
  lemma {:induction false} OccurrencesBeforeSound(rules: seq<IngressRule>, i: nat, j: nat)
    requires IsPosition(rules, i, j)
    ensures forall k :: 0 <= k < |OccurrencesBefore(rules, i, j)| ==>
      var o := OccurrencesBefore(rules, i, j)[k];
      Qualifies(rules, o.rule, o.host) && Before(o, Occurrence(i, j))
    ensures Ordered(OccurrencesBefore(rules, i, j))
    decreases i, j
  {
    if j > 0 {
      OccurrencesBeforeSound(rules, i, j - 1);
    } else if i > 0 {
      OccurrencesBeforeSound(rules, i - 1, |rules[i - 1].hosts|);
    }
  }

  /** Every qualifying pair before `(i, j)` is listed. */
  lemma {:induction false} OccurrencesBeforeComplete(rules: seq<IngressRule>, i: nat, j: nat, r: nat, m: nat)
    requires IsPosition(rules, i, j) && Qualifies(rules, r, m) && Before(Occurrence(r, m), Occurrence(i, j))
    ensures Occurrence(r, m) in OccurrencesBefore(rules, i, j)
    decreases i, j
  {
    if j > 0 {
      if Occurrence(r, m) != Occurrence(i, j - 1) {
        OccurrencesBeforeComplete(rules, i, j - 1, r, m);
      }
    } else {
      OccurrencesBeforeComplete(rules, i - 1, |rules[i - 1].hosts|, r, m);
    }
  }

  /** Only qualifying pairs are in `Occurrences`, each once, in rule order and then
      host order. */
  lemma OccurrencesSound(rules: seq<IngressRule>)
    ensures forall k :: 0 <= k < |Occurrences(rules)| ==>
      Qualifies(rules, Occurrences(rules)[k].rule, Occurrences(rules)[k].host)
    ensures Ordered(Occurrences(rules))
  {
    OccurrencesBeforeSound(rules, |rules|, 0);
  }

  /** Every qualifying (rule, host) pair is in `Occurrences`. */
  lemma OccurrencesComplete(rules: seq<IngressRule>, i: nat, j: nat)
    requires Qualifies(rules, i, j)
    ensures Occurrence(i, j) in Occurrences(rules)
  {
    OccurrencesBeforeComplete(rules, |rules|, 0, i, j);
  }

  /** What is visited before a point is visited before every later point. */
  lemma {:induction false} OccurrencesBeforePrefix(rules: seq<IngressRule>, i: nat, j: nat, i2: nat, j2: nat)
    requires IsPosition(rules, i, j) && IsPosition(rules, i2, j2)
    requires i < i2 || (i == i2 && j <= j2)
    ensures OccurrencesBefore(rules, i, j) <= OccurrencesBefore(rules, i2, j2)
    decreases i2, j2
  {
    if i == i2 && j == j2 {
    } else if j2 > 0 {
      OccurrencesBeforePrefix(rules, i, j, i2, j2 - 1);
    } else {
      OccurrencesBeforePrefix(rules, i, j, i2 - 1, |rules[i2 - 1].hosts|);
    }
  }

  /** A qualifying pair with nothing visited before it is the first of `Occurrences`. */
  lemma OccurrencesFirst(rules: seq<IngressRule>, i: nat, j: nat)
    requires Qualifies(rules, i, j) && OccurrencesBefore(rules, i, j) == []
    ensures Occurrences(rules) != [] && Occurrences(rules)[0] == Occurrence(i, j)
  {
    assert OccurrencesBefore(rules, i, j + 1) == [Occurrence(i, j)];
    OccurrencesBeforePrefix(rules, i, j + 1, |rules|, 0);
  }

  /** One host further: the pair is appended exactly when it qualifies. */
  lemma OccurrencesBeforeStep(rules: seq<IngressRule>, i: nat, j: nat)
    requires i < |rules| && j < |rules[i].hosts|
    ensures Qualifies(rules, i, j) ==>
      OccurrencesBefore(rules, i, j + 1) == OccurrencesBefore(rules, i, j) + [Occurrence(i, j)]
    ensures !Qualifies(rules, i, j) ==> OccurrencesBefore(rules, i, j + 1) == OccurrencesBefore(rules, i, j)
  {
  }

  /** A cluster-local rule adds nothing. */
  lemma {:induction false} OccurrencesBeforeLocalRule(rules: seq<IngressRule>, i: nat, j: nat)
    requires i < |rules| && j <= |rules[i].hosts| && rules[i].visibility.ClusterLocal?
    ensures OccurrencesBefore(rules, i, j) == OccurrencesBefore(rules, i, 0)
  {
    if j > 0 {
      OccurrencesBeforeLocalRule(rules, i, j - 1);
    }
  }

  function HostOf(rules: seq<IngressRule>, o: Occurrence): string
    requires Qualifies(rules, o.rule, o.host)
  {
    rules[o.rule].hosts[o.host]
  }

  // ---------------------------------------------------------------------------
  // Backend resolution from the load balancer status

  /** A usable `DomainInternal`: non-empty, more than two labels, third label `svc`. */
  predicate IsServiceDomain(domain: string) {
    domain != "" && var parts := Split(domain, '.'); |parts| > 2 && parts[2] == "svc"
  }

  function LoadBalancerEntries(publicLoadBalancer: Option<LoadBalancerStatus>): seq<LoadBalancerIngressStatus> {
    match publicLoadBalancer
    case None => []
    case Some(status) => status.ingress
  }

  /** The `DomainInternal` of the last usable entry, if any. */
  function LastServiceDomain(entries: seq<LoadBalancerIngressStatus>): (d: Option<string>)
    ensures d.Some? ==> IsServiceDomain(d.value)
  {
    if entries == [] then None
    else
      var last := |entries| - 1;
      if IsServiceDomain(entries[last].domainInternal) then Some(entries[last].domainInternal)
      else LastServiceDomain(entries[..last])
  }

  /** `serviceName` and `namespace` after the loop over the entries: labels 0 and 1
      of the last usable domain, or both empty. */
  function ResolvedNames(entries: seq<LoadBalancerIngressStatus>): (string, string) {
    match LastServiceDomain(entries)
    case None => ("", "")
    case Some(d) => var parts := Split(d, '.'); (parts[0], parts[1])
  }

  datatype Backend = Backend(service: string, namespace: string)

  /** The backend `makeRoute` targets, or `ErrNoValidLoadbalancerDomain`. */
  function ResolveBackend(publicLoadBalancer: Option<LoadBalancerStatus>): (r: Result<Backend, Error>)
    ensures r.Success? ==> r.value.service != "" && r.value.namespace != ""
  {
    var (service, namespace) := ResolvedNames(LoadBalancerEntries(publicLoadBalancer));
    if service == "" || namespace == "" then Failure(ErrNoValidLoadbalancerDomain)
    else Success(Backend(service, namespace))
  }

  lemma {:induction false} LastServiceDomainAt(entries: seq<LoadBalancerIngressStatus>, k: nat)
    requires k < |entries| && IsServiceDomain(entries[k].domainInternal)
    requires forall l :: k < l < |entries| ==> !IsServiceDomain(entries[l].domainInternal)
    ensures LastServiceDomain(entries) == Some(entries[k].domainInternal)
  {
    var last := |entries| - 1;
    if k < last {
      LastServiceDomainAt(entries[..last], k);
    }
  }

  lemma {:induction false} LastServiceDomainNone(entries: seq<LoadBalancerIngressStatus>)
    ensures LastServiceDomain(entries).None?
        <==> forall k :: 0 <= k < |entries| ==> !IsServiceDomain(entries[k].domainInternal)
  {
    if entries != [] {
      var last := |entries| - 1;
      LastServiceDomainNone(entries[..last]);
      assert forall k :: 0 <= k < last ==> entries[..last][k] == entries[k];
    }
  }

  /** Last usable entry wins: the backend is labels 0 and 1 of the last usable domain,
      and it is an error when either label is empty, whatever earlier entries hold. */
  lemma ResolveBackendLastWins(publicLoadBalancer: Option<LoadBalancerStatus>, k: nat)
    requires k < |LoadBalancerEntries(publicLoadBalancer)|
    requires IsServiceDomain(LoadBalancerEntries(publicLoadBalancer)[k].domainInternal)
    requires forall l :: k < l < |LoadBalancerEntries(publicLoadBalancer)| ==>
      !IsServiceDomain(LoadBalancerEntries(publicLoadBalancer)[l].domainInternal)
    ensures var parts := Split(LoadBalancerEntries(publicLoadBalancer)[k].domainInternal, '.');
      ResolveBackend(publicLoadBalancer)
        == if parts[0] == "" || parts[1] == "" then Failure(ErrNoValidLoadbalancerDomain)
           else Success(Backend(parts[0], parts[1]))
  {
    LastServiceDomainAt(LoadBalancerEntries(publicLoadBalancer), k);
  }

  /** With no usable entry (or no load balancer at all) the result is the error. */
  lemma ResolveBackendNone(publicLoadBalancer: Option<LoadBalancerStatus>)
    requires forall k :: 0 <= k < |LoadBalancerEntries(publicLoadBalancer)| ==>
      !IsServiceDomain(LoadBalancerEntries(publicLoadBalancer)[k].domainInternal)
    ensures ResolveBackend(publicLoadBalancer) == Failure(ErrNoValidLoadbalancerDomain)
  {
    LastServiceDomainNone(LoadBalancerEntries(publicLoadBalancer));
  }

  // ---------------------------------------------------------------------------
  // Timeout annotation

  /** `"%vs"` of `Duration.Seconds()`, a float64, for a whole number of seconds:
      plain digits below a million, exponent form (`1e+06`) from there on, then `s`. */
  function FormatSeconds(seconds: WholeSeconds): (s: string)
    ensures |s| >= 2 && s[|s| - 1] == 's'
  {
    FormatWholeFloat(seconds) + "s"
  }

  /** The annotation value is `s` after a number that reads back as the seconds,
      and that number is plain digits exactly below a million seconds. */
  lemma ParseFormatSeconds(seconds: WholeSeconds)
    ensures var s := FormatSeconds(seconds); ParseWholeFloat(s[..|s| - 1]) == Some(seconds)
    ensures var s := FormatSeconds(seconds); IsDecimal(s[..|s| - 1]) <==> seconds < 1000000
  {
    var value := FormatWholeFloat(seconds);
    assert (value + "s")[..|value|] == value;
    ParseFormatWholeFloat(seconds);
    FormatWholeFloatPlain(seconds);
  }

  /** `"%vs"` of an integer number of seconds, which is how the package-level
      `defaultTimeout` is built from the default maximum revision timeout: `%v` of an
      integer is always its plain decimal digits. */
  function DefaultTimeout(maxSeconds: nat): (s: string)
    ensures |s| >= 2 && s[|s| - 1] == 's'
    ensures IsDecimal(s[..|s| - 1])
  {
    FormatNat(maxSeconds) + "s"
  }

  /** The default value is `s` after the digits of the seconds, which read back. */
  lemma ParseDefaultTimeout(maxSeconds: nat)
    ensures var s := DefaultTimeout(maxSeconds); ParseNat(s[..|s| - 1]) == maxSeconds
  {
    var digits := FormatNat(maxSeconds);
    assert (digits + "s")[..|digits|] == digits;
    ParseFormat(maxSeconds);
  }

  /** The integer form of the default and the float form of a path's timeout write
      the same text exactly below a million seconds. */
  lemma DefaultTimeoutAgrees(seconds: WholeSeconds)
    ensures DefaultTimeout(seconds) == FormatSeconds(seconds) <==> seconds < 1000000
  {
    FormatWholeFloatPlain(seconds);
    if DefaultTimeout(seconds) == FormatSeconds(seconds) {
      var digits := FormatNat(seconds);
      var value := FormatWholeFloat(seconds);
      assert (digits + "s")[..|digits|] == digits;
      assert (value + "s")[..|value|] == value;
      assert |digits| == |value|;
      assert value == digits;
    }
  }

  /** The value one path writes under `TimeoutAnnotation`. */
  function TimeoutValue(path: HTTPIngressPath, defaultTimeout: string): string {
    match path.deprecatedTimeout
    case Some(seconds) => FormatSeconds(seconds)
    case None => defaultTimeout
  }

  predicate HasPaths(rule: IngressRule) {
    rule.http.Some? && rule.http.value.paths != []
  }

  function LastPath(rule: IngressRule): HTTPIngressPath
    requires HasPaths(rule)
  {
    var paths := rule.http.value.paths;
    paths[|paths| - 1]
  }

  /** The annotations after the paths loop of `makeRoute`: the last path alone
      decides the timeout; a nil HTTP block or no paths leaves them as they were. */
  function TimeoutAnnotations(annotations: map<string, string>, rule: IngressRule, defaultTimeout: string): (after: map<string, string>)
    ensures HasPaths(rule) ==> TimeoutAnnotation in after && after[TimeoutAnnotation] == TimeoutValue(LastPath(rule), defaultTimeout)
    ensures !HasPaths(rule) ==> after == annotations
  {
    if HasPaths(rule) then annotations[TimeoutAnnotation := TimeoutValue(LastPath(rule), defaultTimeout)]
    else annotations
  }

  predicate ValidOccurrences(rules: seq<IngressRule>, occs: seq<Occurrence>) {
    forall k :: 0 <= k < |occs| ==> occs[k].rule < |rules|
  }

  /** A shared annotation map after `makeRoute` has run for each pair of `occs` in turn. */
  function AnnotationsAfter(
    annotations: map<string, string>, rules: seq<IngressRule>, occs: seq<Occurrence>, defaultTimeout: string
  ): map<string, string>
    requires ValidOccurrences(rules, occs)
  {
    if occs == [] then annotations
    else
      var last := |occs| - 1;
      TimeoutAnnotations(AnnotationsAfter(annotations, rules, occs[..last], defaultTimeout), rules[occs[last].rule], defaultTimeout)
  }

  lemma AnnotationsAfterSnoc(
    annotations: map<string, string>, rules: seq<IngressRule>, occs: seq<Occurrence>, o: Occurrence, defaultTimeout: string)
    requires ValidOccurrences(rules, occs) && o.rule < |rules|
    ensures ValidOccurrences(rules, occs + [o])
    ensures AnnotationsAfter(annotations, rules, occs + [o], defaultTimeout)
         == TimeoutAnnotations(AnnotationsAfter(annotations, rules, occs, defaultTimeout), rules[o.rule], defaultTimeout)
  {
    assert (occs + [o])[..|occs|] == occs;
  }

  /** Keys other than `TimeoutAnnotation` are never touched. */
  lemma {:induction false} AnnotationsAfterKeepsOthers(
    annotations: map<string, string>, rules: seq<IngressRule>, occs: seq<Occurrence>, defaultTimeout: string, key: string)
    requires ValidOccurrences(rules, occs) && key != TimeoutAnnotation
    ensures var after := AnnotationsAfter(annotations, rules, occs, defaultTimeout);
      (key in after <==> key in annotations) && (key in annotations ==> after[key] == annotations[key])
  {
    if occs != [] {
      AnnotationsAfterKeepsOthers(annotations, rules, occs[..|occs| - 1], defaultTimeout, key);
    }
  }

  /** The last pair whose rule has paths decides the timeout of the shared map. */
  lemma {:induction false} AnnotationsAfterLastWins(
    annotations: map<string, string>, rules: seq<IngressRule>, occs: seq<Occurrence>, defaultTimeout: string, k: nat)
    requires ValidOccurrences(rules, occs)
    requires k < |occs| && HasPaths(rules[occs[k].rule])
    requires forall l :: k < l < |occs| ==> !HasPaths(rules[occs[l].rule])
    ensures AnnotationsAfter(annotations, rules, occs, defaultTimeout)
      == annotations[TimeoutAnnotation := TimeoutValue(LastPath(rules[occs[k].rule]), defaultTimeout)]
  {
    var last := |occs| - 1;
    if k < last {
      AnnotationsAfterLastWins(annotations, rules, occs[..last], defaultTimeout, k);
    } else {
      var before := AnnotationsAfter(annotations, rules, occs[..last], defaultTimeout);
      var v := TimeoutValue(LastPath(rules[occs[k].rule]), defaultTimeout);
      forall key | key != TimeoutAnnotation
        ensures (key in before <==> key in annotations) && (key in annotations ==> before[key] == annotations[key])
      {
        AnnotationsAfterKeepsOthers(annotations, rules, occs[..last], defaultTimeout, key);
      }
      assert before[TimeoutAnnotation := v] == annotations[TimeoutAnnotation := v];
    }
  }

  /** When no pair's rule has paths the shared map is unchanged. */
  lemma {:induction false} AnnotationsAfterUntimed(
    annotations: map<string, string>, rules: seq<IngressRule>, occs: seq<Occurrence>, defaultTimeout: string)
    requires ValidOccurrences(rules, occs)
    requires forall l :: 0 <= l < |occs| ==> !HasPaths(rules[occs[l].rule])
    ensures AnnotationsAfter(annotations, rules, occs, defaultTimeout) == annotations
  {
    if occs != [] {
      AnnotationsAfterUntimed(annotations, rules, occs[..|occs| - 1], defaultTimeout);
    }
  }

  // ---------------------------------------------------------------------------
  // Labels and the route built

  /** The route's labels: the ingress labels with `IngressLabelKey` set to the
      ingress name, overriding any value the ingress had for it. */
  function RouteLabels(ci: Ingress): map<string, string> {
    UnionMaps(ci.labels, map[IngressLabelKey := ci.name])
  }

  lemma RouteLabelsSpec(ci: Ingress)
    ensures var labels := RouteLabels(ci);
      && labels.Keys == ci.labels.Keys + {IngressLabelKey}
      && labels[IngressLabelKey] == ci.name
      && forall key :: key in ci.labels && key != IngressLabelKey ==> labels[key] == ci.labels[key]
  {
  }

  /** Every field of a route built for `host` except its annotations. */
  predicate IsRouteFor(r: Route, ci: Ingress, host: string, backend: Backend, sum256: string -> Digest) {
    && r.name == RouteName(sum256, ci.uid, host)
    && r.namespace == backend.namespace
    && r.labels == RouteLabels(ci)
    && r.host == host
    && r.targetPort == KourierHTTPPort
    && r.to == RouteTargetReference("Service", backend.service, 100)
    && r.tls == TLSConfig(TLSTerminationEdge, InsecureEdgeTerminationPolicyAllow)
    && r.wildcardPolicy == WildcardPolicyNone
  }

  /** The skip conditions of `makeRoute`: a cluster-local rule, or the disable key
      present in the annotations with any value. */
  predicate Skipped(rule: IngressRule, annotations: map<string, string>) {
    rule.visibility.ClusterLocal? || DisableRouteAnnotation in annotations
  }

  // ---------------------------------------------------------------------------
  // The loops and the two operations of route.go

  /** The load balancer loop of `makeRoute`: every usable entry overwrites the
      service and namespace, so the last one is kept. */
  method ResolveLoadBalancer(publicLoadBalancer: Option<LoadBalancerStatus>) returns (serviceName: string, namespace: string)
    ensures (serviceName, namespace) == ResolvedNames(LoadBalancerEntries(publicLoadBalancer))
  {
    serviceName, namespace := "", "";
    if publicLoadBalancer.Some? {
      var entries := publicLoadBalancer.value.ingress;
      for i := 0 to |entries|
        invariant (serviceName, namespace) == ResolvedNames(entries[..i])
      {
        assert entries[..i + 1][..i] == entries[..i];
        var lbIngress := entries[i];
        if lbIngress.domainInternal != "" {
          var parts := Split(lbIngress.domainInternal, '.');
          if |parts| > 2 && parts[2] == "svc" {
            serviceName := parts[0];
            namespace := parts[1];
          }
        }
      }
      assert entries[..|entries|] == entries;
    }
  }

  /** The paths loop of `makeRoute`: each path overwrites the timeout annotation in
      the map it is given, which may be the ingress's own. */
  method SetTimeoutAnnotation(annotations: StringMap, rule: IngressRule, defaultTimeout: string)
    modifies annotations
    ensures annotations.entries == TimeoutAnnotations(old(annotations.entries), rule, defaultTimeout)
  {
    if rule.http.Some? {
      var paths := rule.http.value.paths;
      for i := 0 to |paths|
        invariant i == 0 ==> annotations.entries == old(annotations.entries)
        invariant i > 0 ==>
          annotations.entries == old(annotations.entries)[TimeoutAnnotation := TimeoutValue(paths[i - 1], defaultTimeout)]
      {
        if paths[i].deprecatedTimeout.Some? {
          annotations.entries := annotations.entries[TimeoutAnnotation := FormatSeconds(paths[i].deprecatedTimeout.value)];
        } else {
          annotations.entries := annotations.entries[TimeoutAnnotation := defaultTimeout];
        }
      }
    }
  }

  /** `makeRoute`. The annotations of the result are the ingress's own map when it
      has one, and a new map otherwise; the timeout is written into that map before
      the backend is resolved, so it is written even when the call fails. */
  method MakeRoute(ci: Ingress, host: string, rule: IngressRule, defaultTimeout: string, sum256: string -> Digest)
    returns (result: RouteResult)
    modifies ci.annotations
    ensures result.Skip? <==> Skipped(rule, old(Entries(ci.annotations)))
    ensures result.Fail? <==> !Skipped(rule, old(Entries(ci.annotations))) && ResolveBackend(ci.publicLoadBalancer).Failure?
    ensures result.Fail? ==> result.err == ErrNoValidLoadbalancerDomain
    ensures ci.annotations != null ==>
      ci.annotations.entries == (if Skipped(rule, old(ci.annotations.entries)) then old(ci.annotations.entries)
                                 else TimeoutAnnotations(old(ci.annotations.entries), rule, defaultTimeout))
    ensures result.Built? ==>
      && ResolveBackend(ci.publicLoadBalancer).Success?
      && IsRouteFor(result.route, ci, host, ResolveBackend(ci.publicLoadBalancer).value, sum256)
    ensures result.Built? && ci.annotations != null ==> result.route.annotations == ci.annotations
    ensures result.Built? && ci.annotations == null ==>
      fresh(result.route.annotations)
      && result.route.annotations.entries == TimeoutAnnotations(map[], rule, defaultTimeout)
  {
    var annotations := ci.annotations;
    if annotations == null {
      annotations := new StringMap();
    }
    if rule.visibility.ClusterLocal? {
      return Skip;
    }
    if DisableRouteAnnotation in annotations.entries {
      return Skip;
    }
    SetTimeoutAnnotation(annotations, rule, defaultTimeout);
    var labels := RouteLabels(ci);
    var name := RouteName(sum256, ci.uid, host);
    var serviceName, namespace := ResolveLoadBalancer(ci.publicLoadBalancer);
    if serviceName == "" || namespace == "" {
      return Fail(ErrNoValidLoadbalancerDomain);
    }
    var route := Route(
      name, namespace, labels, annotations, host, KourierHTTPPort,
      RouteTargetReference("Service", serviceName, 100),
      TLSConfig(TLSTerminationEdge, InsecureEdgeTerminationPolicyAllow),
      WildcardPolicyNone);
    return Built(route);
  }

  /** What the routes built for the pairs visited so far satisfy at the `k`-th
      pair: the pair qualifies and, unless the ingress disables routes, the
      `k`-th route is the one `makeRoute` builds for its host, holding the
      ingress's own map when there is one, else a map of its own (`owner` names,
      for every map handed out, the route holding it). */
  predicate RouteAt(
    ci: Ingress, sum256: string -> Digest, disabled: bool, backend: Result<Backend, Error>,
    done: seq<Occurrence>, routes: seq<Route>, owner: map<StringMap, nat>, k: nat)
  {
    k < |done| ==>
      && Qualifies(ci.rules, done[k].rule, done[k].host)
      && (!disabled ==>
            && backend.Success? && k < |routes|
            && IsRouteFor(routes[k], ci, HostOf(ci.rules, done[k]), backend.value, sum256)
            && (ci.annotations != null ==> routes[k].annotations == ci.annotations)
            && (ci.annotations == null ==> routes[k].annotations in owner && owner[routes[k].annotations] == k))
  }

  /** What the routes built for the pairs visited so far satisfy, apart from the
      contents of their annotations: none when the ingress disables routes, else
      one per pair, in order. */
  predicate BuiltSoFar(
    ci: Ingress, sum256: string -> Digest, disabled: bool, backend: Result<Backend, Error>,
    done: seq<Occurrence>, routes: seq<Route>, owner: map<StringMap, nat>)
  {
    && ValidOccurrences(ci.rules, done)
    && (disabled ==> routes == [])
    && (!disabled ==> |routes| == |done|)
    && (!disabled && done != [] ==> backend.Success?)
    && (forall k: nat :: k < |done| ==> RouteAt(ci, sum256, disabled, backend, done, routes, owner, k))
  }

  /** The contents of the ingress's own map once the pairs `done` are visited. */
  function SharedAnnotations(
    a0: map<string, string>, disabled: bool, rules: seq<IngressRule>, done: seq<Occurrence>, defaultTimeout: string
  ): map<string, string>
    requires ValidOccurrences(rules, done)
  {
    if disabled then a0 else AnnotationsAfter(a0, rules, done, defaultTimeout)
  }

  /** Without an ingress map, the `k`-th route's map holds only its own rule's
      timeout. */
  ghost predicate OwnAt(rules: seq<IngressRule>, done: seq<Occurrence>, routes: seq<Route>, defaultTimeout: string, k: nat)
    reads if k < |routes| then {routes[k].annotations} else {}
  {
    k < |routes| && k < |done| && done[k].rule < |rules| ==>
      routes[k].annotations.entries == TimeoutAnnotations(map[], rules[done[k].rule], defaultTimeout)
  }

  /** Without an ingress map: each route holds its own map, holding only its own
      rule's timeout. */
  ghost predicate OwnSoFar(rules: seq<IngressRule>, done: seq<Occurrence>, routes: seq<Route>, defaultTimeout: string)
    reads set k | 0 <= k < |routes| :: routes[k].annotations
  {
    && |routes| == |done|
    && ValidOccurrences(rules, done)
    && (forall k: nat :: k < |routes| ==> OwnAt(rules, done, routes, defaultTimeout, k))
  }

  lemma OwnSoFarSnoc(
    rules: seq<IngressRule>, done: seq<Occurrence>, routes: seq<Route>, defaultTimeout: string, o: Occurrence, r: Route)
    requires OwnSoFar(rules, done, routes, defaultTimeout)
    requires o.rule < |rules|
    requires r.annotations.entries == TimeoutAnnotations(map[], rules[o.rule], defaultTimeout)
    ensures OwnSoFar(rules, done + [o], routes + [r], defaultTimeout)
  {
    var done', routes' := done + [o], routes + [r];
    forall k: nat | k < |routes'| ensures OwnAt(rules, done', routes', defaultTimeout, k) {
      if k < |routes| {
        assert OwnAt(rules, done, routes, defaultTimeout, k);
      }
    }
  }

  lemma BuiltSoFarSnoc(
    ci: Ingress, sum256: string -> Digest, disabled: bool, backend: Result<Backend, Error>,
    done: seq<Occurrence>, routes: seq<Route>, owner: map<StringMap, nat>, o: Occurrence, r: Route)
    requires BuiltSoFar(ci, sum256, disabled, backend, done, routes, owner)
    requires Qualifies(ci.rules, o.rule, o.host) && !disabled && backend.Success?
    requires IsRouteFor(r, ci, HostOf(ci.rules, o), backend.value, sum256)
    requires ci.annotations != null ==> r.annotations == ci.annotations
    requires ci.annotations == null ==> r.annotations !in owner
    ensures BuiltSoFar(ci, sum256, disabled, backend, done + [o], routes + [r], owner[r.annotations := |routes|])
  {
    var done', routes', owner' := done + [o], routes + [r], owner[r.annotations := |routes|];
    forall k: nat | k < |done'| ensures RouteAt(ci, sum256, disabled, backend, done', routes', owner', k) {
      if k < |done| {
        assert RouteAt(ci, sum256, disabled, backend, done, routes, owner, k);
      }
    }
  }

  lemma BuiltSoFarSkip(
    ci: Ingress, sum256: string -> Digest, disabled: bool, backend: Result<Backend, Error>,
    done: seq<Occurrence>, routes: seq<Route>, owner: map<StringMap, nat>, o: Occurrence)
    requires BuiltSoFar(ci, sum256, disabled, backend, done, routes, owner)
    requires Qualifies(ci.rules, o.rule, o.host) && disabled
    ensures BuiltSoFar(ci, sum256, disabled, backend, done + [o], routes, owner)
  {
    forall k: nat | k < |done| + 1 ensures RouteAt(ci, sum256, disabled, backend, done + [o], routes, owner, k) {
      if k < |done| {
        assert RouteAt(ci, sum256, disabled, backend, done, routes, owner, k);
      }
    }
  }

  /** One pass of the hosts loop of `MakeRoutes`: host `j` of the external rule `i`
      is passed over unless it passes `IsRouteHost`, and then given to `makeRoute`.
      On failure the ingress does not disable routes, the backend cannot be resolved
      and this is the first pair; otherwise what held before `(i, j)` holds before
      `(i, j + 1)`. */
  method VisitHost(
    ci: Ingress, defaultTimeout: string, sum256: string -> Digest, i: nat, j: nat,
    ghost a0: map<string, string>, ghost disabled: bool, ghost backend: Result<Backend, Error>,
    routes: seq<Route>, ghost owner: map<StringMap, nat>)
    returns (routes': seq<Route>, err: Option<Error>, ghost owner': map<StringMap, nat>)
    requires i < |ci.rules| && j < |ci.rules[i].hosts| && !ci.rules[i].visibility.ClusterLocal?
    requires disabled == (DisableRouteAnnotation in a0) && backend == ResolveBackend(ci.publicLoadBalancer)
    requires BuiltSoFar(ci, sum256, disabled, backend, OccurrencesBefore(ci.rules, i, j), routes, owner)
    requires ci.annotations != null ==>
      ci.annotations.entries == SharedAnnotations(a0, disabled, ci.rules, OccurrencesBefore(ci.rules, i, j), defaultTimeout)
    requires ci.annotations == null ==> !disabled && OwnSoFar(ci.rules, OccurrencesBefore(ci.rules, i, j), routes, defaultTimeout)
    modifies ci.annotations
    ensures err.Some? ==> err.value == ErrNoValidLoadbalancerDomain
    ensures err.Some? ==> !disabled && backend.Failure? && Occurrences(ci.rules) != []
    ensures err.Some? && ci.annotations != null ==>
      ci.annotations.entries == TimeoutAnnotations(a0, ci.rules[Occurrences(ci.rules)[0].rule], defaultTimeout)
    ensures err.None? ==> BuiltSoFar(ci, sum256, disabled, backend, OccurrencesBefore(ci.rules, i, j + 1), routes', owner')
    ensures err.None? && ci.annotations != null ==>
      ci.annotations.entries == SharedAnnotations(a0, disabled, ci.rules, OccurrencesBefore(ci.rules, i, j + 1), defaultTimeout)
    ensures err.None? && ci.annotations == null ==>
      OwnSoFar(ci.rules, OccurrencesBefore(ci.rules, i, j + 1), routes', defaultTimeout)
  {
    OccurrencesBeforeStep(ci.rules, i, j);
    var rule := ci.rules[i];
    var host := rule.hosts[j];
    var parts := Split(host, '.');
    if !(|parts| > 2 && parts[2] != "svc") {
      assert !Qualifies(ci.rules, i, j);
      return routes, None, owner;
    }
    ghost var done := OccurrencesBefore(ci.rules, i, j);
    ghost var o := Occurrence(i, j);
    if ci.annotations != null && !disabled {
      AnnotationsAfterKeepsOthers(a0, ci.rules, done, defaultTimeout, DisableRouteAnnotation);
    }
    var r := MakeRoute(ci, host, rule, defaultTimeout, sum256);
    if r.Fail? {
      OccurrencesFirst(ci.rules, i, j);
      return routes, Some(r.err), owner;
    }
    AnnotationsAfterSnoc(a0, ci.rules, done, o, defaultTimeout);
    if r.Built? {
      BuiltSoFarSnoc(ci, sum256, disabled, backend, done, routes, owner, o, r.route);
      if ci.annotations == null {
        OwnSoFarSnoc(ci.rules, done, routes, defaultTimeout, o, r.route);
      }
      routes', owner' := routes + [r.route], owner[r.route.annotations := |routes|];
    } else {
      BuiltSoFarSkip(ci, sum256, disabled, backend, done, routes, owner, o);
      routes', owner' := routes, owner;
    }
    err := None;
  }

  /** The hosts loop of `MakeRoutes` for the external rule `i`: `VisitHost` for each
      host in order, stopping at the first failure. */
  method MakeRuleRoutes(
    ci: Ingress, defaultTimeout: string, sum256: string -> Digest, i: nat,
    ghost a0: map<string, string>, ghost disabled: bool, ghost backend: Result<Backend, Error>,
    routes: seq<Route>, ghost owner: map<StringMap, nat>)
    returns (routes': seq<Route>, err: Option<Error>, ghost owner': map<StringMap, nat>)
    requires i < |ci.rules| && !ci.rules[i].visibility.ClusterLocal?
    requires disabled == (DisableRouteAnnotation in a0) && backend == ResolveBackend(ci.publicLoadBalancer)
    requires BuiltSoFar(ci, sum256, disabled, backend, OccurrencesBefore(ci.rules, i, 0), routes, owner)
    requires ci.annotations != null ==>
      ci.annotations.entries == SharedAnnotations(a0, disabled, ci.rules, OccurrencesBefore(ci.rules, i, 0), defaultTimeout)
    requires ci.annotations == null ==> !disabled && OwnSoFar(ci.rules, OccurrencesBefore(ci.rules, i, 0), routes, defaultTimeout)
    modifies ci.annotations
    ensures err.Some? ==> err.value == ErrNoValidLoadbalancerDomain
    ensures err.Some? ==> !disabled && backend.Failure? && Occurrences(ci.rules) != []
    ensures err.Some? && ci.annotations != null ==>
      ci.annotations.entries == TimeoutAnnotations(a0, ci.rules[Occurrences(ci.rules)[0].rule], defaultTimeout)
    ensures err.None? ==> BuiltSoFar(ci, sum256, disabled, backend, OccurrencesBefore(ci.rules, i, |ci.rules[i].hosts|), routes', owner')
    ensures err.None? && ci.annotations != null ==>
      ci.annotations.entries == SharedAnnotations(a0, disabled, ci.rules, OccurrencesBefore(ci.rules, i, |ci.rules[i].hosts|), defaultTimeout)
    ensures err.None? && ci.annotations == null ==>
      OwnSoFar(ci.rules, OccurrencesBefore(ci.rules, i, |ci.rules[i].hosts|), routes', defaultTimeout)
  {
    var rule := ci.rules[i];
    routes', owner' := routes, owner;
    for j := 0 to |rule.hosts|
      invariant BuiltSoFar(ci, sum256, disabled, backend, OccurrencesBefore(ci.rules, i, j), routes', owner')
      invariant ci.annotations != null ==>
        ci.annotations.entries == SharedAnnotations(a0, disabled, ci.rules, OccurrencesBefore(ci.rules, i, j), defaultTimeout)
      invariant ci.annotations == null ==>
        !disabled && OwnSoFar(ci.rules, OccurrencesBefore(ci.rules, i, j), routes', defaultTimeout)
    {
      routes', err, owner' := VisitHost(ci, defaultTimeout, sum256, i, j, a0, disabled, backend, routes', owner');
      if err.Some? {
        return;
      }
    }
    err := None;
  }

  /** `MakeRoutes`. Rules, then hosts, are visited in order; cluster-local rules and
      hosts failing `IsRouteHost` are passed over, a skipped host adds nothing, and
      the first failure is returned alone. Since the disable key and the backend do
      not depend on the host, the outcome is: no routes when the ingress disables
      them, else the error as soon as there is one pair to build, else one route per
      pair of `Occurrences`. When the ingress has an annotation map, every route
      holds that very map, and it ends up with the timeouts of all those pairs
      written into it in turn. */
  method MakeRoutes(ci: Ingress, defaultTimeout: string, sum256: string -> Digest)
    returns (result: Result<seq<Route>, Error>)
    modifies ci.annotations
    ensures result.Failure? <==>
      && DisableRouteAnnotation !in old(Entries(ci.annotations))
      && Occurrences(ci.rules) != []
      && ResolveBackend(ci.publicLoadBalancer).Failure?
    ensures result.Failure? ==> result.error == ErrNoValidLoadbalancerDomain
    ensures result.Success? ==>
      |result.value| == if DisableRouteAnnotation in old(Entries(ci.annotations)) then 0 else |Occurrences(ci.rules)|
    ensures result.Success? ==> forall k :: 0 <= k < |result.value| ==>
      && ResolveBackend(ci.publicLoadBalancer).Success?
      && Qualifies(ci.rules, Occurrences(ci.rules)[k].rule, Occurrences(ci.rules)[k].host)
      && IsRouteFor(result.value[k], ci, HostOf(ci.rules, Occurrences(ci.rules)[k]),
                    ResolveBackend(ci.publicLoadBalancer).value, sum256)
    ensures ci.annotations != null && result.Success? ==>
      && (forall k :: 0 <= k < |result.value| ==> result.value[k].annotations == ci.annotations)
      && ci.annotations.entries == (
           if DisableRouteAnnotation in old(ci.annotations.entries) then old(ci.annotations.entries)
           else AnnotationsAfter(old(ci.annotations.entries), ci.rules, Occurrences(ci.rules), defaultTimeout))
    ensures ci.annotations != null && result.Failure? ==>
      ci.annotations.entries
        == TimeoutAnnotations(old(ci.annotations.entries), ci.rules[Occurrences(ci.rules)[0].rule], defaultTimeout)
    ensures ci.annotations == null && result.Success? ==>
      && (forall k :: 0 <= k < |result.value| ==>
            result.value[k].annotations.entries
               == TimeoutAnnotations(map[], ci.rules[Occurrences(ci.rules)[k].rule], defaultTimeout))
      && (forall k, l :: 0 <= k < l < |result.value| ==> result.value[k].annotations != result.value[l].annotations)
  {
    var routes: seq<Route> := [];
    ghost var a0 := Entries(ci.annotations);
    ghost var disabled := DisableRouteAnnotation in a0;
    ghost var backend := ResolveBackend(ci.publicLoadBalancer);
    ghost var owner: map<StringMap, nat> := map[];
    for i := 0 to |ci.rules|
      invariant BuiltSoFar(ci, sum256, disabled, backend, OccurrencesBefore(ci.rules, i, 0), routes, owner)
      invariant ci.annotations != null ==>
        ci.annotations.entries == SharedAnnotations(a0, disabled, ci.rules, OccurrencesBefore(ci.rules, i, 0), defaultTimeout)
      invariant ci.annotations == null ==>
        !disabled && OwnSoFar(ci.rules, OccurrencesBefore(ci.rules, i, 0), routes, defaultTimeout)
    {
      if !ci.rules[i].visibility.ClusterLocal? {
        var err;
        routes, err, owner := MakeRuleRoutes(ci, defaultTimeout, sum256, i, a0, disabled, backend, routes, owner);
        if err.Some? {
          return Failure(err.value);
        }
      } else {
        OccurrencesBeforeLocalRule(ci.rules, i, |ci.rules[i].hosts|);
      }
      assert OccurrencesBefore(ci.rules, i + 1, 0) == OccurrencesBefore(ci.rules, i, |ci.rules[i].hosts|);
    }
    ghost var occs := Occurrences(ci.rules);
    forall k | 0 <= k < |routes|
      ensures Qualifies(ci.rules, occs[k].rule, occs[k].host)
      ensures IsRouteFor(routes[k], ci, HostOf(ci.rules, occs[k]), backend.value, sum256)
      ensures ci.annotations != null ==> routes[k].annotations == ci.annotations
      ensures ci.annotations == null ==>
        routes[k].annotations.entries == TimeoutAnnotations(map[], ci.rules[occs[k].rule], defaultTimeout)
    {
      assert RouteAt(ci, sum256, disabled, backend, occs, routes, owner, k);
      if ci.annotations == null {
        assert OwnAt(ci.rules, occs, routes, defaultTimeout, k);
      }
    }
    if ci.annotations == null {
      forall k, l | 0 <= k < l < |routes| ensures routes[k].annotations != routes[l].annotations {
        assert RouteAt(ci, sum256, disabled, backend, occs, routes, owner, k);
        assert RouteAt(ci, sum256, disabled, backend, occs, routes, owner, l);
      }
    }
    return Success(routes);
  }

  // ---------------------------------------------------------------------------
  // Worked cases

  /** A 600-second path timeout is written as `600s`. */
  lemma FormatSecondsExample()
    ensures FormatSeconds(600) == "600s"
  {
  }

  /** From a million seconds on the value is in exponent form. */
  lemma FormatSecondsMillion()
    ensures FormatSeconds(1000000) == "1e+06s"
  {
    FormatWholeFloatMillion();
  }

  lemma FormatSecondsMantissa()
    ensures FormatSeconds(1200000) == "1.2e+06s"
  {
    FormatWholeFloatMantissa();
  }

  /** The host filter looks at the third label only: a host of three or more
      labels passes exactly when the third is not `svc`. */
  lemma IsRouteHostThirdLabel(labels: seq<string>)
    requires |labels| >= 3 && forall i :: 0 <= i < |labels| ==> '.' !in labels[i]
    ensures IsRouteHost(Join(labels, '.')) <==> labels[2] != "svc"
  {
    SplitJoin(labels, '.');
  }

  /** Two-label hosts such as `foo.com` never get a route. */
  lemma {:induction false} TwoLabelHostDropped(a: string, b: string)
    requires '.' !in a && '.' !in b
    ensures !IsRouteHost(a + "." + b)
  {
    SplitGlue(b, "", '.');
    assert b + "" == b;
    SplitCons(a, b, '.');
  }

  /** A load balancer reporting one domain `service.namespace.svc...` (Kourier's is
      `kourier.knative-serving-ingress.svc.cluster.local`) resolves to that service
      in that namespace. */
  lemma {:induction false} ResolveBackendSingle(service: string, namespace: string, rest: string)
    requires service != "" && namespace != "" && '.' !in service && '.' !in namespace
    ensures var domain := service + "." + namespace + ".svc." + rest;
      ResolveBackend(Some(LoadBalancerStatus([LoadBalancerIngressStatus(domain)]))) == Success(Backend(service, namespace))
  {
    var domain := service + "." + namespace + ".svc." + rest;
    assert domain == service + "." + (namespace + "." + ("svc" + "." + rest));
    assert '.' !in "svc";
    SplitCons("svc", rest, '.');
    SplitCons(namespace, "svc" + "." + rest, '.');
    SplitCons(service, namespace + "." + ("svc" + "." + rest), '.');
    assert IsServiceDomain(domain);
  }
}
