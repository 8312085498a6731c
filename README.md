# TrustManagerBuilder policy model

This project models the trust-policy builder of the CWAC-Security library,
`TrustManagerBuilder`. An application uses the builder to assemble the
TrustManager that decides which TLS server certificate chains to accept.

The builder has one piece of policy state: the root composite `mgr`. A composite
either matches all of its children (AND) or matches any of them (OR). The model
keeps the builder's imperative form:

- `Builder.TrustManagerBuilder` is a class with fields `mgr` and `hasContext`.
- `hasContext` records whether a Context was supplied.
- `CompositeManager.CompositeTrustManager` is the root composite object. `Add`
  mutates it in place.
- `or()` and `and()` replace the root with a fresh composite whose only child
  is the previous tree.
- `denyAll()`, `useDefault()`, `allowCA(...)` and `selfSigned(...)` append
  leaves to the current root. The last three go through `addAll`, a `for` loop
  that keeps only the X509 trust managers and preserves their order.

The `TrustTree` module holds the tree as a value (`Tree`) and its meaning under
the AND/OR semantics that the builder's documentation describes (`Accepts`).
Leaf verdicts are uninterpreted, except that the deny-all manager rejects
everything. The lemmas show what a policy means: checks added after `or()` are
OR'd with everything configured before, and checks added after `and()` are AND'd
with it. They also show that leaves only accumulate, in order.

The builder starts from an empty match-all composite. Under the AND/OR meaning
that tree accepts every chain. So does any policy that begins with `or()` on a
fresh builder (`TrustTree.LeadingOrAcceptsAll`). A fail-closed reading would say
an unconfigured policy rejects everything. The model follows the code's initial
tree instead. The composite's own run-time check is not part of this model, so
the model cannot decide which behaviour the library actually has.

The Java overloads differ only in where the material comes from: a `File`, a raw
resource ID or an asset path. Here they take one `Source` parameter. Reading the
material is input/output and cryptography. It is a loader parameter (`CaLoader`,
`StoreLoader`) that either yields trust managers or fails. Each overload that
uses the default format is a separate method whose contract names the default
(`"X.509"` or `"BKS"`).

## Model

| member | source | states |
|---|---|---|
| `TrustTree.X509Checks` | security/src/com/commonsware/cwac/security/trust/TrustManagerBuilder.java:553-559 | the checks `addAll` appends are never more than its input, and each one is an X509 manager taken from the input |
| `TrustTree.X509ChecksConcat` | security/src/com/commonsware/cwac/security/trust/TrustManagerBuilder.java:553-559 | filtering respects concatenation, so input order is preserved |
| `TrustTree.X509ChecksComplete` | security/src/com/commonsware/cwac/security/trust/TrustManagerBuilder.java:553-559 | every X509 manager of the input gets its check; none is dropped |
| `TrustTree.X509ChecksLeaves` | security/src/com/commonsware/cwac/security/trust/TrustManagerBuilder.java:553-559 | the leaves added are exactly the input's X509 managers in input order, matching an independent front-to-back filter; the result holds only X509 leaves |
| `TrustTree.AllAcceptMeaning` | security/src/com/commonsware/cwac/security/trust/TrustManagerBuilder.java:116-122 | a match-all composite accepts iff every child accepts |
| `TrustTree.AnyAcceptsMeaning` | security/src/com/commonsware/cwac/security/trust/TrustManagerBuilder.java:100-106 | a match-any composite accepts iff some child accepts |
| `TrustTree.ShortCircuit` | security/src/com/commonsware/cwac/security/trust/TrustManagerBuilder.java:100-122 | absorption: one rejecting child makes a match-all composite reject; one accepting child makes a match-any composite accept, whatever the other children say |
| `TrustTree.AllAcceptAppend` | security/src/com/commonsware/cwac/security/trust/TrustManagerBuilder.java:116-122 | appending children to a match-all list conjoins their verdicts |
| `TrustTree.AnyAcceptsAppend` | security/src/com/commonsware/cwac/security/trust/TrustManagerBuilder.java:100-106 | appending children to a match-any list disjoins their verdicts |
| `TrustTree.AddedChecksMeaning` | security/src/com/commonsware/cwac/security/trust/TrustManagerBuilder.java:99-129 | checks added to the root are AND'd with what came before in match-all mode and OR'd in match-any mode |
| `TrustTree.OrThenChecks` | security/src/com/commonsware/cwac/security/trust/TrustManagerBuilder.java:99-114 | X then `or()` then checks Y accepts iff X accepts or one of Y accepts |
| `TrustTree.AndThenChecks` | security/src/com/commonsware/cwac/security/trust/TrustManagerBuilder.java:116-129 | X then `and()` then checks Y accepts iff X accepts and all of Y accept |
| `TrustTree.DenyAllMeaning` | security/src/com/commonsware/cwac/security/trust/TrustManagerBuilder.java:154-165 | a deny-all leaf makes a match-all root reject every chain and leaves a match-any root's meaning unchanged |
| `TrustTree.LeadingOrAcceptsAll` | security/src/com/commonsware/cwac/security/trust/TrustManagerBuilder.java:51 | the initial empty match-all tree accepts every chain, and so does `or()` on a fresh builder followed by any checks |
| `TrustTree.AddedChecksLeaves` | security/src/com/commonsware/cwac/security/trust/TrustManagerBuilder.java:553-559 | adding children appends their leaves after the existing ones and keeps every leaf X509 |
| `TrustTree.RerootLeaves` | security/src/com/commonsware/cwac/security/trust/TrustManagerBuilder.java:110-129 | wrapping the tree in a new root keeps its leaves and their order |
| `CompositeManager.CompositeTrustManager.MatchAll` | security/src/com/commonsware/cwac/security/trust/TrustManagerBuilder.java:51 | a match-all composite holding the given children in order |
| `CompositeManager.CompositeTrustManager.MatchAny` | security/src/com/commonsware/cwac/security/trust/TrustManagerBuilder.java:111 | a match-any composite holding the given children in order |
| `CompositeManager.CompositeTrustManager.Add` | security/src/com/commonsware/cwac/security/trust/TrustManagerBuilder.java:162 | appends one X509 manager as the last child; the mode and the earlier children are unchanged |
| `Builder.Expected` | security/src/com/commonsware/cwac/security/trust/TrustManagerBuilder.java:561-566 | a call fails with the missing-Context error exactly when it needs a Context and has none; it succeeds exactly when that check passes and loading succeeds |
| `Builder.Added` | security/src/com/commonsware/cwac/security/trust/TrustManagerBuilder.java:553-559 | the leaves a call appends are the X509 managers it loaded, in load order, when it succeeds, and none when it fails; every appended leaf is an X509 manager |
| `Builder.TrustManagerBuilder.constructor` | security/src/com/commonsware/cwac/security/trust/TrustManagerBuilder.java:79-81 | a fresh builder has an empty match-all tree and records whether a Context was supplied |
| `Builder.TrustManagerBuilder.WithoutContext` | security/src/com/commonsware/cwac/security/trust/TrustManagerBuilder.java:61-63 | the empty constructor gives the same empty match-all tree and no Context |
| `Builder.TrustManagerBuilder.Build` | security/src/com/commonsware/cwac/security/trust/TrustManagerBuilder.java:87-89 | returns the current root object itself, not a copy |
| `Builder.TrustManagerBuilder.BuildArray` | security/src/com/commonsware/cwac/security/trust/TrustManagerBuilder.java:95-97 | a new one-element array whose only element is the current root |
| `Builder.TrustManagerBuilder.Or` | security/src/com/commonsware/cwac/security/trust/TrustManagerBuilder.java:110-114 | the new root is a fresh match-any composite whose only child is the whole previous tree; leaves and Context are unchanged |
| `Builder.TrustManagerBuilder.And` | security/src/com/commonsware/cwac/security/trust/TrustManagerBuilder.java:125-129 | the new root is a fresh match-all composite whose only child is the whole previous tree; leaves and Context are unchanged |
| `Builder.TrustManagerBuilder.DenyAll` | security/src/com/commonsware/cwac/security/trust/TrustManagerBuilder.java:161-165 | exactly one deny-all leaf becomes the root's last child; nothing else changes |
| `Builder.TrustManagerBuilder.AddAll` | security/src/com/commonsware/cwac/security/trust/TrustManagerBuilder.java:553-559 | the root's children become the old children followed by the X509 checks of the input; the mode is unchanged |
| `Builder.TrustManagerBuilder.CheckContext` | security/src/com/commonsware/cwac/security/trust/TrustManagerBuilder.java:561-566 | passes iff a Context was supplied, otherwise fails with the missing-Context error |
| `Builder.TrustManagerBuilder.AddLoaded` | security/src/com/commonsware/cwac/security/trust/TrustManagerBuilder.java:216-220 | a loading failure is reported and leaves the tree unchanged; otherwise the loaded managers go through `addAll` |
| `Builder.TrustManagerBuilder.UseDefault` | security/src/com/commonsware/cwac/security/trust/TrustManagerBuilder.java:142-152 | appends the X509 checks of the platform's default managers, or fails and leaves the tree unchanged |
| `Builder.TrustManagerBuilder.AddFrom` | security/src/com/commonsware/cwac/security/trust/TrustManagerBuilder.java:271-278 | raw resources and assets are refused without a Context before anything is read, and the tree is left unchanged; local files never need a Context |
| `Builder.TrustManagerBuilder.AllowCA` | security/src/com/commonsware/cwac/security/trust/TrustManagerBuilder.java:211-339 | the outcome and the appended checks for a CA certificate of the given type from any source |
| `Builder.TrustManagerBuilder.AllowCAX509` | security/src/com/commonsware/cwac/security/trust/TrustManagerBuilder.java:186-307 | `allowCA` without a type reads the certificate as "X.509" |
| `Builder.TrustManagerBuilder.SelfSigned` | security/src/com/commonsware/cwac/security/trust/TrustManagerBuilder.java:397-551 | the outcome and the appended checks for a keystore of the given format from any source |
| `Builder.TrustManagerBuilder.SelfSignedBKS` | security/src/com/commonsware/cwac/security/trust/TrustManagerBuilder.java:367-513 | `selfSigned` without a format reads the keystore as "BKS" |
| `Builder.EitherSelfSigned` | security/src/com/commonsware/cwac/security/trust/TrustManagerBuilder.java:99-114 | the documented `selfSigned(...).or().selfSigned(...)` policy succeeds iff both keystores load, and then accepts a chain iff all of the first keystore's checks accept it or some check of the second does |

## Left out

- The composite's run-time certificate check is not modelled. `CompositeTrustManager.java` is not part of this model. `Accepts` gives the AND/OR meaning that the builder's documentation describes. Which exception a rejecting composite throws, and what an empty composite does at run time, are not modelled.
- Certificate verification is not modelled. This covers the platform's `TrustManagerFactory` (lines 145-149), `TrustManagers.allowCA` and `TrustManagers.useTrustStore` (lines 218, 276, 336, 404, 475, 548), and X.509 path validation as in section 6 of RFC 5280. These are library and cryptographic code outside the model. Leaf verdicts are uninterpreted (`Verdict`).
- Opening streams from files, raw resources and assets is input/output. The `CaLoader`/`StoreLoader` parameters stand for it. An exception while opening or reading becomes `LoadFailed`.
- A Context is reduced to whether one was supplied. The model does not include its resources or assets objects.
- Composites below the root are values, not shared objects. In Java, a composite wrapped by `or()`/`and()` stays reachable through a `TrustManager` that an earlier `build()` returned, and outside code could mutate it. Only aliasing of the current root is modelled (`Build` returns `mgr` itself).
- `Builder.TrustManagerBuilder.Or`, `And` and `DenyAll` return nothing where the Java methods return the builder itself. `UseDefault`, `AllowCA`, `AllowCAX509`, `SelfSigned` and `SelfSignedBKS` return an `Outcome` in its place, and that `Outcome` reports the exception the Java method would throw. Chaining becomes consecutive calls on the same object.
- Null arguments and the resulting `NullPointerException`s are not modelled. Clearing password arrays is also not modelled.
- The memorizing trust manager (`memorize`, `memorizeCert`, `allowCertOnce`, `clearMemorizedCerts`) is not defined in the builder and is not part of this model.
- The demo applications (UI, Activity lifecycle, `AsyncTask`, HTTPS connections, content-resolver file copying, permission auditing) are left out.
