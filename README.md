# OpenShift Routes from a Knative Ingress

This project models the route generator of the OpenShift Knative ingress
(`serving/ingress/pkg/reconciler/ingress/resources/route.go`) and proves properties of it in Dafny.

- `MakeRoutes` walks an Ingress's rules, and each rule's hosts, in order. It builds one OpenShift
  Route per host that is worth exposing. A host is passed over when its rule is cluster-local.
  It is also passed over unless it has more than two dot-separated labels and its third label
  is not `svc`. `makeRoute` can skip a host, which adds nothing. The first error ends the walk,
  and the error is returned alone.
- `makeRoute` does these steps in order:
  - It skips a cluster-local rule, or an ingress whose annotations hold the disable key with
    any value.
  - It writes the timeout annotation once per path of the rule, so the last path wins. The
    value is `%v` of the path's deprecated timeout in seconds, a float64, followed by `s`:
    plain digits below a million seconds (`600s`), and Go's exponent form from a million on
    (`1e+06s`, `1.2e+06s`). A path without a timeout writes the default timeout.
  - It unions the labels.
  - It resolves the backend service and namespace as labels 0 and 1 of the last usable
    `DomainInternal` of the public load balancer. A usable entry is non-empty, has more than
    two labels and has `svc` as its third. `ErrNoValidLoadbalancerDomain` is returned when no
    entry is usable, or when label 0 or label 1 of the chosen entry is empty.
  - It builds the Route with fixed port, target, weight, TLS and wildcard fields.
- `routeName` is `route-<uid>-` followed by `%x` of `hashHost(host)`. `hashHost(host)` is the
  first six hex digits of the host's SHA-256 sum.

Two behaviours of the code are easy to misread, and the model follows the code in both.

- **The name suffix has twelve hex digits, not six.** `hashHost` already returns a string of six
  hex digits. `%x` hex-encodes that string's bytes again. `Resources.RouteNameFormat` and
  `Resources.RouteNameSuffixDigits` state the resulting shape.
- **Annotations are shared, not copied.** `makeRoute` takes the ingress's own annotation map by
  reference and writes the timeout into it. It does this before the backend is resolved, so
  the write also happens on the error path. Every route built from one ingress holds that same
  map. What the map ends up holding depends on the outcome:
  - With the disable key present, nothing is written and the map is unchanged.
  - On failure, only the rule of the first qualifying pair has been applied to it.
  - Otherwise every qualifying pair's rule has been applied in turn (`Resources.AnnotationsAfter`).
    The timeout is then the last path's value of the last visited rule that has paths
    (`Resources.AnnotationsAfterLastWins`). If no visited rule has paths, the map is unchanged
    (`Resources.AnnotationsAfterUntimed`).

  A fresh map is made only when the ingress has none, and then each route gets its own map. The model represents the Go map as a class
  (`GoMaps.StringMap`), and the Ingress refers to it. `MakeRoute` and `MakeRoutes` state the
  aliasing and the final map contents.

Files:

| file | content |
|---|---|
| `wrappers.dfy` | `Option` (nil pointers) and `Result` (Go's `(value, error)` pairs) |
| `gostrings.dfy` | `strings.Split` with a one-character separator, and `strings.Join` |
| `gofmt.dfy` | `%x` on bytes and on strings, `%v` on whole numbers, and `%v` on a float64 holding a whole number, with a reader for what it writes |
| `gomaps.dfy` | Go's `map[string]string` as a reference (`StringMap`), and `kmeta.UnionMaps` |
| `networking.dfy` | the Ingress fields that route.go reads |
| `routev1.dfy` | the Route fields that route.go sets |
| `route.dfy` | module `Resources`: route.go itself |

Some inputs are parameters of the model:

- SHA-256 is `sum256: string -> Digest`, which returns 32 bytes.
- The default timeout string is `defaultTimeout`. route.go:25 builds it from an integer constant that this model does not include; `Resources.DefaultTimeout` is how that string is written from any such constant.

`MakeRoutes` is specified against `Resources.Occurrences`, a function that lists the
qualifying (rule, host) pairs in visiting order. Its contract gives the outcome in closed form:

- If the disable key is present, the result is an empty list and no error, whatever the load
  balancer holds.
- Otherwise, if there is at least one qualifying pair and the backend cannot be resolved, the
  result is `ErrNoValidLoadbalancerDomain` and no routes.
- Otherwise, the k-th route is the route for the host of the k-th pair.

## Model

| member | source | states |
|---|---|---|
| Resources.MakeRoutes | serving/ingress/pkg/reconciler/ingress/resources/route.go:32-61 | fails iff the disable key is absent, some (rule, host) pair qualifies and the backend does not resolve, and then the error is exactly `ErrNoValidLoadbalancerDomain`; on success, no routes when disabled, else exactly one route per qualifying pair in rule-then-host order, each with the name, namespace, labels, host, port, target, TLS and wildcard policy built for that host; with an ingress map every route holds that very map and it ends with the timeouts of all pairs written in turn (on failure, those of the first pair only); without one each route has a distinct map holding only its own rule's timeout |
| Resources.MakeRuleRoutes | serving/ingress/pkg/reconciler/ingress/resources/route.go:40-57 | the hosts loop of one external rule keeps the loop invariant of `MakeRoutes` from the rule's first host to past its last, or stops at the first failure, which is possible only when routes are not disabled, the backend fails, and a pair exists |
| Resources.VisitHost | serving/ingress/pkg/reconciler/ingress/resources/route.go:46-55 | one host: a host failing the filter changes nothing; a skipped one adds no route; a built one is appended with a map not handed out before; the shared map gains that rule's timeout; failure is fail-fast with the first pair's timeout written |
| Resources.MakeRoute | serving/ingress/pkg/reconciler/ingress/resources/route.go:63-144 | skips exactly when the rule is cluster-local or the disable key is present (any value); otherwise fails exactly when the backend does not resolve, with `ErrNoValidLoadbalancerDomain`; the ingress's map receives the rule's timeout whenever it is not skipped, failure included; a built route has every fixed field, holds the ingress's map when there is one and a fresh map holding only the timeout otherwise |
| Resources.SetTimeoutAnnotation | serving/ingress/pkg/reconciler/ingress/resources/route.go:80-92 | the paths loop leaves the map as `TimeoutAnnotations` describes: the last path's value under the timeout key, nothing else changed, and no change for a nil HTTP block or no paths |
| Resources.ResolveLoadBalancer | serving/ingress/pkg/reconciler/ingress/resources/route.go:99-113 | the load-balancer loop ends with labels 0 and 1 of the last usable `DomainInternal`, or both empty |
| Resources.ResolvedNames | serving/ingress/pkg/reconciler/ingress/resources/route.go:99-113 | `serviceName` and `namespace` after the load-balancer loop: labels 0 and 1 of `LastServiceDomain`, or both empty (the loop itself is `Resources.ResolveLoadBalancer`) |
| Resources.LastServiceDomain | serving/ingress/pkg/reconciler/ingress/resources/route.go:102-112 | the domain chosen is non-empty, has more than two labels and has `svc` as its third |
| Resources.LastServiceDomainAt | serving/ingress/pkg/reconciler/ingress/resources/route.go:102-112 | a usable entry with no usable entry after it is the one chosen (last wins) |
| Resources.LastServiceDomainNone | serving/ingress/pkg/reconciler/ingress/resources/route.go:102-112 | nothing is chosen iff no entry is usable |
| Resources.ResolveBackend | serving/ingress/pkg/reconciler/ingress/resources/route.go:99-117 | a resolved backend has a non-empty service and a non-empty namespace |
| Resources.ResolveBackendLastWins | serving/ingress/pkg/reconciler/ingress/resources/route.go:99-117 | the backend is labels 0 and 1 of the last usable entry, or the error when either label is empty, whatever earlier entries hold |
| Resources.ResolveBackendNone | serving/ingress/pkg/reconciler/ingress/resources/route.go:99-117 | with no usable entry, or a nil load balancer, the result is `ErrNoValidLoadbalancerDomain` |
| Resources.ResolveBackendSingle | serving/ingress/pkg/reconciler/ingress/resources/route.go:104-110 | a single domain `service.namespace.svc.…` resolves to that service in that namespace (e.g. Kourier's `kourier.knative-serving-ingress.svc.cluster.local`) |
| Resources.FormatSeconds | serving/ingress/pkg/reconciler/ingress/resources/route.go:86 | `"%vs"` of the seconds as a float64 ends in `s` (what precedes it is `Resources.ParseFormatSeconds`) |
| Resources.ParseFormatSeconds | serving/ingress/pkg/reconciler/ingress/resources/route.go:86 | the number before the `s` reads back as the seconds, and it is plain digits exactly when the timeout is below a million seconds |
| Resources.FormatSecondsExample | serving/ingress/pkg/reconciler/ingress/resources/route.go:86 | 600 seconds are written as `600s` |
| Resources.FormatSecondsMillion | serving/ingress/pkg/reconciler/ingress/resources/route.go:86 | a million seconds are written as `1e+06s` |
| Resources.FormatSecondsMantissa | serving/ingress/pkg/reconciler/ingress/resources/route.go:86 | 1,200,000 seconds are written as `1.2e+06s` |
| Resources.DefaultTimeout | serving/ingress/pkg/reconciler/ingress/resources/route.go:25 | `"%vs"` of an integer number of seconds is its decimal digits followed by `s` |
| Resources.ParseDefaultTimeout | serving/ingress/pkg/reconciler/ingress/resources/route.go:25 | the digits before `s` read back as the default number of seconds |
| Resources.DefaultTimeoutAgrees | serving/ingress/pkg/reconciler/ingress/resources/route.go:25 | the integer form of the default and the float form of a path timeout agree exactly below a million seconds |
| Resources.TimeoutValue | serving/ingress/pkg/reconciler/ingress/resources/route.go:82-89 | what one path writes: `FormatSeconds` of its deprecated timeout, or `defaultTimeout` when it has none |
| Resources.TimeoutAnnotations | serving/ingress/pkg/reconciler/ingress/resources/route.go:80-92 | the map after the paths loop: with paths, the timeout key holds the last path's `TimeoutValue`; with a nil HTTP block or no paths, the map is unchanged (the loop itself is `Resources.SetTimeoutAnnotation`) |
| Resources.AnnotationsAfter | serving/ingress/pkg/reconciler/ingress/resources/route.go:48-55 | the ingress's map after `makeRoute` has applied `TimeoutAnnotations` for each visited pair's rule in turn (its properties are `Resources.AnnotationsAfterKeepsOthers`, `Resources.AnnotationsAfterLastWins` and `Resources.AnnotationsAfterUntimed`) |
| Resources.AnnotationsAfterSnoc | serving/ingress/pkg/reconciler/ingress/resources/route.go:80-92 | proof helper: unfolds `AnnotationsAfter` by one pair, so visiting one more pair applies that pair's rule's timeout rule to the shared map |
| Resources.AnnotationsAfterKeepsOthers | serving/ingress/pkg/reconciler/ingress/resources/route.go:80-92 | keys other than the timeout key are never added, removed or changed in the shared map |
| Resources.AnnotationsAfterLastWins | serving/ingress/pkg/reconciler/ingress/resources/route.go:80-92 | the shared map's timeout is the last path's value of the last visited rule that has paths |
| Resources.AnnotationsAfterUntimed | serving/ingress/pkg/reconciler/ingress/resources/route.go:80-92 | when no visited rule has paths the shared map passes through unchanged |
| Resources.RouteLabels | serving/ingress/pkg/reconciler/ingress/resources/route.go:94-96 | computes `UnionMaps(ci.labels, map[IngressLabelKey := ci.name])` (its contents are `Resources.RouteLabelsSpec`) |
| GoMaps.UnionMaps | serving/ingress/pkg/reconciler/ingress/resources/route.go:94-96 | `kmeta.UnionMaps`: the keys of both maps; a key of the right map takes the right value; any other key keeps the left value |
| Resources.RouteLabelsSpec | serving/ingress/pkg/reconciler/ingress/resources/route.go:94-96 | the labels are the ingress labels plus `IngressLabelKey`, which is the ingress name and overrides any existing value; other labels are kept |
| Resources.HashHost | serving/ingress/pkg/reconciler/ingress/resources/route.go:150-152 | computes `Hex(sum256(host))[..6]`; the result is six lower-case hex digits (what they encode is `Resources.HashHostSpec`) |
| Resources.RouteName | serving/ingress/pkg/reconciler/ingress/resources/route.go:146-148 | computes `"route-" + uid + "-" + HexString(HashHost(sum256, host))`; the result starts with `route-<uid>-` and is 19 characters longer than the uid (what the suffix encodes is `Resources.RouteNameFormat`) |
| Resources.HashHostSpec | serving/ingress/pkg/reconciler/ingress/resources/route.go:150-152 | `hashHost` is six lower-case hex digits, the hex form of the digest's first three bytes, and decodes back to them |
| Resources.RouteNameFormat | serving/ingress/pkg/reconciler/ingress/resources/route.go:146-148 | a route name is `route-`, the uid, `-`, then twelve lower-case hex digits that decode to the bytes of `hashHost(host)` |
| Resources.RouteNameCollision | serving/ingress/pkg/reconciler/ingress/resources/route.go:146-152 | two names agree iff the uids agree and the hosts' digests agree in their first three bytes, so the name depends on the uid and host only |
| Resources.RouteNameSuffixDigits | serving/ingress/pkg/reconciler/ingress/resources/route.go:147 | each byte of the suffix is an ASCII hex digit: digits at even positions are `3` (then `0`-`9`) or `6` (then `1`-`6`) |
| Resources.HexAt | serving/ingress/pkg/reconciler/ingress/resources/route.go:147-151 | digits `2k` and `2k+1` of a hex encoding are the high and low nibble of byte `k` |
| Resources.IsRouteHost | serving/ingress/pkg/reconciler/ingress/resources/route.go:46-47 | the host filter: `Split(host, '.')` has more than two pieces and piece 2 is not `svc` (its meaning is `Resources.IsRouteHostThirdLabel` and `Resources.TwoLabelHostDropped`) |
| Resources.IsRouteHostThirdLabel | serving/ingress/pkg/reconciler/ingress/resources/route.go:46-47 | a host made of three or more dot-free labels passes the filter iff its third label is not `svc` |
| Resources.TwoLabelHostDropped | serving/ingress/pkg/reconciler/ingress/resources/route.go:41-47 | two-label hosts such as `foo.com` never pass the filter |
| Resources.Occurrences | serving/ingress/pkg/reconciler/ingress/resources/route.go:35-47 | every listed pair names an existing rule |
| Resources.OccurrencesSound | serving/ingress/pkg/reconciler/ingress/resources/route.go:35-47 | every listed pair is of an external rule and a host passing the filter, and the list is strictly in rule-then-host order (so no pair twice) |
| Resources.OccurrencesComplete | serving/ingress/pkg/reconciler/ingress/resources/route.go:35-47 | every external rule's host passing the filter is listed |
| Resources.OccurrencesBeforeSound | serving/ingress/pkg/reconciler/ingress/resources/route.go:35-47 | the pairs visited before a point qualify, precede it and are in order |
| Resources.OccurrencesBeforeComplete | serving/ingress/pkg/reconciler/ingress/resources/route.go:35-47 | every qualifying pair before a point is visited before it |
| Resources.OccurrencesBeforePrefix | serving/ingress/pkg/reconciler/ingress/resources/route.go:35-58 | what is visited before a point is a prefix of what is visited before any later point |
| Resources.OccurrencesFirst | serving/ingress/pkg/reconciler/ingress/resources/route.go:48-51 | a qualifying pair with nothing visited before it is the first pair, the one where a failure is returned |
| Resources.OccurrencesBeforeStep | serving/ingress/pkg/reconciler/ingress/resources/route.go:40-47 | proof helper: unfolds `OccurrencesBefore` by one host, so one host further the pair is appended iff it qualifies |
| Resources.OccurrencesBeforeLocalRule | serving/ingress/pkg/reconciler/ingress/resources/route.go:36-39 | a cluster-local rule contributes no pair |
| Resources.OwnSoFarSnoc | serving/ingress/pkg/reconciler/ingress/resources/route.go:52-55 | without an ingress map, appending a route whose new map holds its rule's timeout keeps "each route holds its own rule's timeout" |
| Resources.BuiltSoFarSnoc | serving/ingress/pkg/reconciler/ingress/resources/route.go:55 | appending the route built for the next qualifying pair keeps one route per pair, in order, with maps not shared unless they are the ingress's |
| Resources.BuiltSoFarSkip | serving/ingress/pkg/reconciler/ingress/resources/route.go:52-54 | a skipped pair adds no route and keeps the invariant |
| GoStrings.Split | serving/ingress/pkg/reconciler/ingress/resources/route.go:46 | `strings.Split` gives at least one piece and no piece contains the separator |
| GoStrings.JoinSplit | serving/ingress/pkg/reconciler/ingress/resources/route.go:46 | joining the pieces with the separator gives back the string |
| GoStrings.SplitJoin | serving/ingress/pkg/reconciler/ingress/resources/route.go:46 | splitting a join of separator-free pieces gives back the pieces |
| GoStrings.SplitGlue | serving/ingress/pkg/reconciler/ingress/resources/route.go:46 | a separator-free prefix is glued onto the first piece |
| GoStrings.SplitCons | serving/ingress/pkg/reconciler/ingress/resources/route.go:46 | a separator-free label followed by the separator becomes a piece of its own |
| GoFmt.DigitValue | serving/ingress/pkg/reconciler/ingress/resources/route.go:147-151 | a hex digit's value is below 16, and below 10 iff it is a decimal digit |
| GoFmt.HexDigit | serving/ingress/pkg/reconciler/ingress/resources/route.go:147-151 | `%x` writes a lower-case hex digit whose value is the nibble |
| GoFmt.DigitRoundTrip | serving/ingress/pkg/reconciler/ingress/resources/route.go:147-151 | writing a digit's value gives the digit back |
| GoFmt.Hex | serving/ingress/pkg/reconciler/ingress/resources/route.go:147-151 | `%x` writes two lower-case hex digits per byte |
| GoFmt.Unhex | serving/ingress/pkg/reconciler/ingress/resources/route.go:147-151 | decoding gives half as many bytes as digits |
| GoFmt.UnhexHex | serving/ingress/pkg/reconciler/ingress/resources/route.go:147-151 | decoding inverts `%x` |
| GoFmt.HexUnhex | serving/ingress/pkg/reconciler/ingress/resources/route.go:147-151 | `%x` inverts decoding on even-length lower-case hex |
| GoFmt.HexPrefix | serving/ingress/pkg/reconciler/ingress/resources/route.go:151 | the first `2k` digits encode the first `k` bytes, which is what `[0:6]` keeps |
| GoFmt.HexInjective | serving/ingress/pkg/reconciler/ingress/resources/route.go:147-151 | two byte sequences have equal hex forms iff they are equal |
| GoFmt.AsciiBytes | serving/ingress/pkg/reconciler/ingress/resources/route.go:147 | the bytes of an ASCII string are its character codes, one per character |
| GoFmt.HexString | serving/ingress/pkg/reconciler/ingress/resources/route.go:147 | `%x` of a string is lower-case hex, twice as long |
| GoFmt.FormatNat | serving/ingress/pkg/reconciler/ingress/resources/route.go:86 | `%v` of a whole number is non-empty decimal digits with a leading zero only for zero |
| GoFmt.ParseFormat | serving/ingress/pkg/reconciler/ingress/resources/route.go:86 | the digits written read back as the number |
| GoFmt.Pow10 | serving/ingress/pkg/reconciler/ingress/resources/route.go:86 | proof helper: `10^k` is positive |
| GoFmt.FormatNatLength | serving/ingress/pkg/reconciler/ingress/resources/route.go:86 | a number has at most `k` digits iff it is below `10^k`, so Go's test "decimal exponent below 6" is "below a million" |
| GoFmt.FormatWholeFloat | serving/ingress/pkg/reconciler/ingress/resources/route.go:86 | `%v` of a float64 holding a whole number below 2^53 is non-empty (its form is `GoFmt.FormatWholeFloatPlain`; that it reads back is `GoFmt.ParseFormatWholeFloat`) |
| GoFmt.FormatWholeFloatPlain | serving/ingress/pkg/reconciler/ingress/resources/route.go:86 | the plain form is used iff the decimal exponent is below 6, i.e. below a million; it is the only form made of digits alone, and it is the number's own digits |
| GoFmt.ExponentForm | serving/ingress/pkg/reconciler/ingress/resources/route.go:86 | the exponent form `d.ddde+XX` is non-empty (it reads back by `GoFmt.ParseExponentForm`) |
| GoFmt.TrimZeros | serving/ingress/pkg/reconciler/ingress/resources/route.go:86 | the shortest digits: a prefix of the digits, with only zeros cut, and ending in a non-zero digit unless empty |
| GoFmt.ShiftScales | serving/ingress/pkg/reconciler/ingress/resources/route.go:86 | proof helper: the digits of `v` followed by `k` zeros are worth `v * 10^k` |
| GoFmt.ParseTrimZeros | serving/ingress/pkg/reconciler/ingress/resources/route.go:86 | cutting the trailing zeros divides the value by ten per zero cut |
| GoFmt.ExponentDigits | serving/ingress/pkg/reconciler/ingress/resources/route.go:86 | the exponent is written with at least two decimal digits |
| GoFmt.ParseExponentDigits | serving/ingress/pkg/reconciler/ingress/resources/route.go:86 | the exponent digits read back as the exponent |
| GoFmt.ParseMantissa | serving/ingress/pkg/reconciler/ingress/resources/route.go:86 | a mantissa that reads yields at least one decimal digit |
| GoFmt.ParseMantissaOf | serving/ingress/pkg/reconciler/ingress/resources/route.go:86 | the mantissa written for some digits reads back as those digits |
| GoFmt.ParseExponentOf | serving/ingress/pkg/reconciler/ingress/resources/route.go:86 | `+` and the exponent digits read back as the exponent |
| GoFmt.MantissaLetters | serving/ingress/pkg/reconciler/ingress/resources/route.go:86 | a mantissa never holds `e`, so the `e` in the exponent form is the only one |
| GoFmt.ParseAroundE | serving/ingress/pkg/reconciler/ingress/resources/route.go:86 | text with one `e` is read as the mantissa before it and the exponent after it |
| GoFmt.ParseExponentNotation | serving/ingress/pkg/reconciler/ingress/resources/route.go:86 | `d.ddde+XX` reads back as the digits scaled so that the first is worth `10^XX` |
| GoFmt.ScaledTrimmed | serving/ingress/pkg/reconciler/ingress/resources/route.go:86 | the shortest digits, with the first worth `10^(number of digits - 1)`, are the number itself |
| GoFmt.ParseExponentForm | serving/ingress/pkg/reconciler/ingress/resources/route.go:86 | the exponent form of a number's digits reads back as that number |
| GoFmt.ParseFormatWholeFloat | serving/ingress/pkg/reconciler/ingress/resources/route.go:86 | whatever `%v` writes for a whole float64 reads back as the number, in either form |
| GoFmt.FormatWholeFloatMillion | serving/ingress/pkg/reconciler/ingress/resources/route.go:86 | a million is written `1e+06` |
| GoFmt.FormatWholeFloatMantissa | serving/ingress/pkg/reconciler/ingress/resources/route.go:86 | 1,200,000 is written `1.2e+06` |
| GoFmt.MillionDigits | serving/ingress/pkg/reconciler/ingress/resources/route.go:86 | proof helper: the digits of a million |
| GoFmt.MillionTrimmed | serving/ingress/pkg/reconciler/ingress/resources/route.go:86 | proof helper: a million's shortest digits are `1` |
| GoFmt.MantissaDigits | serving/ingress/pkg/reconciler/ingress/resources/route.go:86 | proof helper: the digits of 1,200,000 |
| GoFmt.MantissaTrimmed | serving/ingress/pkg/reconciler/ingress/resources/route.go:86 | proof helper: the shortest digits of 1,200,000 are `12` |
| GoStrings.SplitWhole | serving/ingress/pkg/reconciler/ingress/resources/route.go:86 | a string without the separator splits into itself alone |
| GoStrings.SplitPair | serving/ingress/pkg/reconciler/ingress/resources/route.go:86 | two separator-free pieces around one separator split back into those two |
| GoMaps.StringMap.constructor | serving/ingress/pkg/reconciler/ingress/resources/route.go:66-67 | `make(map[string]string)` is empty |

## Left out

- SHA-256 itself is not modelled. The digest is the parameter `sum256`, which returns 32 bytes, so the model covers only the hex, truncate, hex-again and format steps around it. Passing a Go string to the hash as bytes (`[]byte(host)`) is folded into `sum256`.
- The value of `config.DefaultMaxRevisionTimeoutSeconds` is part of a package this model does not include. `defaultTimeout` (route.go:25) is therefore a parameter of the operations. `Resources.DefaultTimeout` models how route.go:25 writes it from an integer constant: `%v` of an integer is its plain digits, never exponent form.
- Resources.FormatSeconds: covers whole seconds only. Path timeouts are `Networking.WholeSeconds`, whole seconds from 0 up to 9223372036, the most an int64 count of nanoseconds holds. A fractional timeout such as `1.5s` therefore cannot be expressed. Neither can the negative durations a `metav1.Duration` can hold, for which `%v` would write a leading minus sign, such as `-5s`. For whole seconds the float64 `Duration.Seconds()` is exact, since they are all below 2^53, and both forms of `%v` are modelled.
- The visibility is modelled as two values only: cluster-local, and anything else.
- The Kubernetes and OpenShift API types are reduced to the fields route.go reads or sets. `intstr.FromString` is the port name string. `ptr.Int32(100)` is the weight 100. `*Route` pointers are values in the result list.
- Resources.MakeRoutes: when the ingress has no annotation map, it states that the routes' maps are pairwise distinct and hold only their own rule's timeout. It does not state that each map is freshly allocated; `Resources.MakeRoute` states freshness for each call.
- Applying routes to the cluster, reconciliation and status propagation are not part of route.go and are not modelled.
