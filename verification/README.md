# latch, modelled and proved in Dafny

latch is a node-level HTTP cache: packet programs redirect pods' TCP connections to a proxy, a
control plane decides which pods and requests are covered, and the proxy answers from a bounded
store what it may. This project models these parts and proves what their combination is for.
`dafny verify dfyconfig.toml` checks everything.

**Serving from the cache.** `Protocol` is the request handler as a state machine: any number of
requests run at once, each a process with a program counter, and every access to the policy, the
learned Vary index or the store is a step of its own; policy swaps, sweeps, evictions and the clock
move in between. `Freshness` proves, of every run without any assumption, what is stored and how old
it is when it is served. `Transparency` proves that in every run every hit replays a stored upstream
response to an earlier request that agrees with this one on host, method, URI, port and every header
the response varies on, as long as no two header names in play can be taken for each other and no body
for a Vary line; `Confusion` is a run with two names that can, and a wrong hit. It rests on `CacheKey` (the text hashed into a key is
uniquely decodable), `Vary` (learning and merging header names), `CacheControl` (directives and
lifetimes) and `Store` (the bounded store with its counters and evictions).

`Settled` and `Stability` show what Vary learning is good for: with one rule and a steady upstream, what
is stored is found again under every interleaving, and requests never remove each other's variants.
`Gap` is about the one way in which a fresh entry goes all the same, says exactly when, and proves that
otherwise it stays; `LostEntry` is a run in which it happens (`Scenarios` computes such runs). `Proxying`
is the handler as methods that change index and store in place; a call that is not interrupted is proved
to take the protocol's steps in order.

**Packets.** `Latch` rewrites frames in place with the kernel's incremental checksums (`Checksum`,
RFC 1624 section 3, equation 3): validity of both checksums is kept in both directions, for all header
lengths and payloads, and the address translation is undone on the way back although the connection
table may lose any entry at any time.

**Control plane.** `Watcher` keeps per-namespace policy lists that act as a map and publishes rules
sorted so that the first match is a most specific one; `Policy` relates the three gates; `Enforcer`
interleaves the watcher's writes and coalesced wake-ups with enforcement rounds (`Links` is the link
manager racing with interface deletions, `LinkManager` the same code as methods). No wake-up is lost,
and every attached link has one owner.

**TLS.** `Sni` inverts a ClientHello printer on exactly the hellos that fit the reader's buffer;
`LeafCert` is the leaf-certificate cache with its single flight.

`Text`, `Http`, `Bytes` and `Totals` hold what the others share.

## Findings

Where the code does not do what one would expect, the model follows the code and the exact condition
is proved.

- A request finds the entry it has itself brought in exactly if three things hold
  (`Stability.FindsOwnIff`). First, the response has a Vary line with a name, or the rule's headers are in
  canonical form and free of repetition: a rule that keys on `accept`, with an upstream that sends no
  Vary, stores under `accept=` and then looks up under `Accept=` for ever
  (`Stability.UntidyRuleNeverHits`). Second, the rule or the response names a header, or no earlier
  response under the same base key did: an empty list is not recorded, so old names are never forgotten
  and the response is stored where nobody looks (`Stability.OldNamesAreNotForgotten`). Third, no keyed
  header is Connection unless its value was `close` already, because the proxy overwrites it before it
  computes the store key.
- `Get` reads under one lock and deletes under another. A request that has read an expired entry deletes
  whatever is under the key by then, also the fresh entry another request has stored in between
  (`LostEntry.FreshEntryIsLost`). A live entry can be lost this way exactly if some request has read or
  found an entry under its key that expires earlier (`Gap.LiveEntryLostIff`).
- On a key line a name and a value are only separated by `=`. Two names can be taken for each other
  exactly if the one goes on with `=` where the other, a field name, ends, and no blank follows
  (`CacheKey.ConfusableIffKeysCollide`), and then a request can be given the response to a request with
  another value of the header it varies on (`Confusion.ConfusedHit`, for an upstream that varies on `A` and
  later on `A=b`). Field names are tokens and cannot hold `=` (RFC 9110 section 5.1); rule headers and Vary
  lines are not checked for it.
- Keyed bodies and Vary lines are not kept apart either: the body `A=x`, keyed without headers, and the
  header `A: x`, keyed without a body, give the same key (`CacheKey.BodyPassesForLine`). Keys can be decoded
  if no rule keys on bodies, or requests have none, or all rules key on bodies and are about the same
  headers (`Transparency.KeyDecodes`).
- A Vary line with a star says that the response matches no later request (RFC 9111 section 4.1). Such a
  response, if cacheable otherwise, is stored all the same exactly if the star is not alone on the line
  (`Freshness.StarIsStoredIff`): `Accept, *` is read as two field names (`Vary.StarAmongOthers`).
- `time.Duration(secs) * time.Second` wraps around: a lifetime is exact exactly up to 9223372036 seconds
  (`CacheControl.TtlExact`); one second more stores an entry that has expired already.
- A ClientHello record longer than the 4096 bytes of the reader's buffer yields no name
  (`Sni.PeekInvertsPrint`, for every buffer size).
- A rule that covers pods need not match any request they can make. It does exactly if its host can be a
  request's host without its port, one of its methods is a token, and one of its paths is empty, `*` or
  begins with a slash (`Policy.MatchedIffMatchable`): not so the host `[::1]:80`
  (`Policy.UnreachableRuleExample`) and the path `api` (`Policy.PathWithoutSlash`).
- The comment on `GetCertificate` says results are cached for 24 h; the code caches until five minutes
  before the certificate ends, so 23 h 55 min at most.

## Model

| member | source | states |
|---|---|---|
| Transparency.EveryHitIsTransparent | internal/proxy/proxy.go:262-322 | over every run and interleaving in which no two header names in play can be confused and bodies cannot be taken for Vary lines (no rule keys on them, or there are none, or all rules do and are about the same headers), every hit replays, unchanged but for `X-Cache: HIT`, a response that may be stored to an earlier request that agrees on the host (header, else URI), method, URI, port, and the first line of every header the rule is about and of every header the response's first Vary line names, at an age within the lifetime chosen (RFC 9111 sections 4, 4.1, 4.2.1) |
| Transparency.EveryHitAgreesOnBody | internal/cachekey/key.go:30-33 | where all rules key on bodies, every hit agrees on the body, too |
| Transparency.KeyDecodes | internal/cachekey/key.go:20-46 | in such runs equal keys mean equal host, method, URI, port, names, values and, if keyed, bodies, whatever lists they were made with |
| Transparency.EveryCachedReplyIsTransparent | internal/proxy/proxy.go:278-294 | the same of what the client is sent: every reply made from the cache is such a hit of the very request it answers |
| Transparency.SameKeyIsVariant | internal/cachekey/key.go:20-46 | looking up the key an exchange was stored under implies agreement on everything it was stored with, whatever Vary sets were known at either time |
| Transparency.PlainRunsAreTransparent | internal/proxy/proxy.go:459-490 | rules and Vary lines without `=` and line breaks meet the assumption about names, so every hit of such a run is transparent |
| Transparency.PerformOk | internal/proxy/proxy.go:262-329 | each single step of a request keeps the invariant of shared state and request |
| Transparency.ApplyOk | internal/cache/memory.go:108-125 | so do sweeps, policy swaps, arrivals and the clock |
| Freshness.EveryEntryIsStorable | internal/proxy/proxy.go:297-320 | over every run, whatever rules key on and names look like, every stored entry has status, headers, protocol, body and time of an exchange whose status is in 200..299, whose whole body is within a non-zero limit, whose Cache-Control line has no directive no-store or private in any case, whose Vary line is not `*`, and whose request has no no-store; its lifetime is the one its directives mean; its key is made from the request as sent and its Vary set (RFC 9111 section 3) |
| Freshness.EveryHitIsFresh | internal/proxy/proxy.go:278-294 | over every run, every hit serves such a response at an age within the lifetime its directives mean, to a request on whose Cache-Control line there is neither no-store nor no-cache in any case |
| Freshness.StorableIff | internal/proxy/proxy.go:303-311 | what the handler stores is exactly what these conditions on the two messages allow |
| Freshness.LookupAllowedIff | internal/proxy/proxy.go:266-278 | it looks up exactly the requests without no-store and no-cache |
| Freshness.StarIsStoredIff | internal/proxy/proxy.go:305-314 | a response whose Vary line has a star, and that may be stored otherwise, is stored if and only if the star is not alone |
| Vary.StarAmongOthers | internal/proxy/proxy.go:459-471 | `Accept, *` is read as having a field named `*` |
| Confusion.ConfusedHit | internal/proxy/proxy.go:312-320 | a run with the Vary lines `A` and `A=b` in which a request without `A` is given the response to a request with `A: b=` |
| Confusion.OnlyNamesAreWrong | internal/cachekey/key.go:35-43 | that run meets every other assumption of transparency |
| Stability.FindsOwnIff | internal/proxy/proxy.go:272-276 | after learning from its response, a request looks up the key it is stored under if and only if there was something to learn or the rule's headers are canonical and free of repetition, there is something to remember or nothing was known before, and no Connection other than close is keyed |
| Stability.OldNamesAreNotForgotten | internal/proxy/proxy.go:453-457 | with no names in rule and response but an older name in the index it does not |
| Stability.UntidyRuleNeverHits | internal/proxy/proxy.go:473-476 | with the rule header `accept` and no Vary line it does not |
| Stability.StoredIsHit | internal/proxy/proxy.go:272-296 | with one rule and a steady Vary per base key: a request for a variant that has once been stored is answered from the entry if it is there when the request reads the store and unexpired when it checks it, whatever others do between the steps |
| Stability.LookupFindsStored | internal/proxy/proxy.go:272-276 | in such runs, once an exchange has been stored, every request for its variant looks up its key from then on |
| Stability.SameRequestIsVariant | internal/proxy/proxy.go:315-320 | the request that brought a response is itself such a request |
| Stability.DeleteOldRemovesNothing | internal/proxy/proxy.go:316-318 | in such runs the deletion after a key change removes no entry at all |
| Stability.VariantsDoNotDisturb | internal/proxy/proxy.go:312-320 | in such runs no request deletes another variant's entry: what a step other than Set removes is filed under the request's own variant, by a request that had found its key expired |
| Settled.LookupNamesFull | internal/proxy/proxy.go:446-457 | what a lookup keys on is the learned set, up to order, once it is known, and the rule's own headers before |
| Gap.LiveEntryLostIff | internal/cache/memory.go:32-44 | a live entry can be deleted by some request's Get before it expires if and only if some request has read or found an entry under its key that expires earlier |
| Gap.EntryStays | internal/cache/memory.go:32-67 | in settled runs a live entry that no request endangers so stays until it expires, unless a Set overwrites or evicts it |
| Gap.StoredStaysHit | internal/proxy/proxy.go:272-296 | and every request for its variant that comes later is answered from it within its lifetime, under every interleaving |
| Gap.SameRequestHits | internal/proxy/proxy.go:312-322 | the same from the moment a fitting response has been stored |
| LostEntry.FreshEntryIsLost | internal/cache/memory.go:32-44 | a settled run of three equal requests in which a fresh entry is deleted by a request that had found its predecessor expired |
| Proxying.Proxy.HandleRequest | internal/proxy/proxy.go:226-349 | one uninterrupted call changes index, store and history as the protocol's steps in order, and replies accordingly; a request that meets all conditions of no rule, or whose body is too large, changes nothing and gets the upstream's answer as it is |
| Proxying.Proxy.ServeRequest | internal/proxy/proxy.go:226-349 | a sequence of calls keeps the invariant, and a reply from the cache is transparent |
| Proxying.Proxy.ServeFromCache | internal/proxy/proxy.go:278-294 | if the first Cache-Control line has a directive no-store or no-cache, in any case, nothing is served and the store stays; otherwise an entry no older than its lifetime is served, unchanged but for `X-Cache: HIT`, and an older one is deleted |
| Proxying.Proxy.AnswerMiss | internal/proxy/proxy.go:297-335 | an error is a bad gateway; an answer outside 200..299, larger than the limit, with no-store or private, with the Vary line `*`, or to a request with no-store is passed on as it is, index and store unchanged; any other is learned from, its entry stored if it fits, what was looked up under another key deleted, and it is passed on with `X-Cache: MISS` |
| Proxying.Proxy.FetchUpstream | internal/proxy/proxy.go:351-425 | the request is sent with `Connection: close`; an entry is made exactly for answers of status 200..299 whose body is within a non-zero limit |
| Proxying.Proxy.Keep | internal/proxy/proxy.go:312-320 | relearning, deletion under a changed key and Set, as one effect on index and store |
| Proxying.Proxy.StoreVaryIndex | internal/proxy/proxy.go:453-457 | an empty set leaves the index as it is |
| Proxying.HandledOk | internal/proxy/proxy.go:226-349 | a call keeps the protocol's invariant |
| Protocol.ClassifyIff | internal/proxy/proxy.go:227-265 | a request goes to the cache if and only if its body fits and some rule is met, for its Host without port or else the address dialled, and its path or else the root |
| Protocol.BaseKeyIff | internal/proxy/proxy.go:272 | Vary sets are shared by exactly the requests of the same host, method, URI and port |
| Protocol.SweepEffect | internal/cache/memory.go:108-120 | in the protocol a sweep removes exactly what is older than its lifetime |
| CacheKey.Generate | internal/cachekey/key.go:20-46 | the chunks written to the hasher are the pre-image of request, body and configuration |
| CacheKey.KeyText | internal/cachekey/key.go:23-43 | the pre-image of a key about one header, spelled out |
| CacheKey.KeyIffSameTarget | internal/cachekey/key.go:20-46 | keys without bodies are equal if and only if host, method, URI, port and the multiset of (name, value) pairs are, across different Vary lists no name of which can be confused with a name of the other |
| CacheKey.ConfusableIffKeysCollide | internal/cachekey/key.go:35-43 | two different names let two requests as the HTTP reader delivers them share a key if and only if the one goes on with `=` where the other, a field name, ends, and no blank follows |
| CacheKey.BodyPassesForLine | internal/cachekey/key.go:30-43 | a request with the body `A=x` keyed on no header and one with `A: x` and no body share a key, both keyed on bodies |
| CacheKey.ConfusableIffLinesCollide | internal/cachekey/key.go:38 | likewise of single lines and values |
| CacheKey.KeyIffSameTargetAndBody | internal/cachekey/key.go:30-43 | with bodies keyed on both sides and equally many names, the body is determined too, in both directions |
| CacheKey.VaryOrderIrrelevant | internal/cachekey/key.go:35-43 | permuting the Vary list never changes the key |
| CacheKey.EqualsSignInNameIsAmbiguous | internal/cachekey/key.go:38 | a request with `A: b=` keyed on `A` and one without `A` keyed on `A=b` share a key |
| Vary.ParseVaryHeader | internal/proxy/proxy.go:459-471 | the loop computes the list whose meaning the next two rows give |
| Vary.ParseVaryMembers | internal/proxy/proxy.go:459-471 | a name is in the list if and only if the line is not `*` and some comma-separated part of it trims to a non-empty text with that canonical form |
| Vary.ParseOfWrittenVary | internal/proxy/proxy.go:459-471 | any list of names, written with any case and space, is read back in order and in canonical form |
| Vary.MergeVaryHeaders | internal/proxy/proxy.go:473-490 | collecting in a set, in any order, and sorting gives the unique sorted list of canonical names; the first list unchanged if the second is empty |
| Vary.MergeAbsorbs | internal/proxy/proxy.go:473-490 | merge(a, merge(a, b)) = merge(a, b) for non-empty b; sorted, duplicate-free, canonical |
| Vary.MergeCovers | internal/proxy/proxy.go:473-490 | the merged list keys on every name of the second list and on the canonical form of every name of the first, or is the first list |
| Vary.MergeMeetsIff | internal/proxy/proxy.go:473-490 | merge(a, merge(a, b)) is a permutation of merge(a, b) if and only if b is not empty or a is canonical and free of repetition |
| CacheControl.ParseCacheControl | internal/proxy/proxy.go:506-520 | the loop yields the map of directives, later ones winning |
| CacheControl.ParseOfWritten | internal/proxy/proxy.go:506-520 | any directive list, rendered with any case, spacing and quoting, parses to the last value of each name (RFC 9111 section 5.2) |
| CacheControl.ParseNamesIff | internal/proxy/proxy.go:506-520 | of any line at all: no-store, no-cache or private is found if and only if some part between commas is that word in any case, between any spaces, alone or before an equals sign |
| CacheControl.TtlExact | internal/proxy/proxy.go:534-543 | a second count gives exactly that lifetime if and only if it is at most 9223372036 |
| CacheControl.TtlOverflows | internal/proxy/proxy.go:538 | the next second count gives a negative lifetime |
| CacheControl.TtlOfWritten | internal/proxy/proxy.go:534-543 | of a rendered list, a usable s-maxage decides, else a usable max-age, else the rule; the lifetime is the count in nanoseconds, exact up to 9223372036 seconds and wrapped to 64 bits beyond |
| CacheControl.UsableIff | internal/proxy/proxy.go:535-541 | a directive yields a lifetime if and only if it is present and is decimal digits behind an optional sign, not negative (but for -0) and not beyond 64 bits |
| CacheControl.UsableValue | internal/proxy/proxy.go:537-539 | and the lifetime is the count times 1000000000, wrapped to 64 bits |
| CacheControl.UnusableFallsThrough | internal/proxy/proxy.go:535-542 | an unusable s-maxage counts as absent, and so on down to the fallback |
| CacheControl.CacheControlTtl | internal/proxy/proxy.go:534-543 | the loop over the two directives computes that lifetime |
| Store.Cache.Set | internal/cache/memory.go:46-61 | terminates; stores the entry if and only if it fits the whole budget, and empties the store if and only if it does not; evicts live entries only once no expired one is left and only as long as they are in the way; counters and conservation of entries kept |
| Store.Cache.MakeRoom | internal/cache/memory.go:54-58 | the eviction loop stops as soon as there is room, the last victim, a live one if any live one went, having been in the way; it succeeds exactly if the entry fits the budget |
| Store.SetSparesLiveIff | internal/cache/memory.go:46-61 | a Set of a fitting entry evicts no live entry if and only if all live entries fit beside it, however much room expired ones take |
| Store.Cache.EvictOneLocked | internal/cache/memory.go:94-106 | removes one entry, expired if so asked, and reports it; or there is none |
| Store.Cache.Get | internal/cache/memory.go:32-44 | without interruption: a hit is the value of the latest Set, no older than its lifetime; an older entry is deleted |
| Store.Cache.Read | internal/cache/memory.go:32-39 | the locked read yields the value of the latest Set of that key |
| Store.Cache.Delete | internal/cache/memory.go:63-67 | removes that key only, and counts it |
| Store.Cache.RemoveLocked | internal/cache/memory.go:77-86 | byte and entry counters stay the sums over the map |
| Store.Cache.AddLocked | internal/cache/memory.go:88-92 | likewise on insertion |
| Store.Cache.SweepLocked | internal/cache/memory.go:108-120 | a sweep removes exactly the entries older than their lifetime and owes their number as a report |
| Store.Cache.ReportSweep | internal/cache/memory.go:121-123 | the report settles what was owed: evicted = reported + pending |
| Store.EntrySize | internal/cache/memory.go:127-136 | the loop over headers in any order adds up body, names and values |
| Store.SizeCountsBytes | internal/cache/memory.go:127-136 | every byte of body, header names and header lines counts once |
| Store.SetKeepsOthers | internal/cache/memory.go:46-61 | Set invents nothing, keeps the budget, and touches no other entry when there is room |
| Policy.MatchIsFirst | internal/policy/policy.go:48-80 | the match is the first rule all of whose conditions hold: namespace empty or equal, every requirement of the selector by its operator, port 0 or equal, host `*` or the stripped host, method listed if any is, and some path a prefix if there is one; there is none if and only if there is no such rule |
| Policy.StripIff | internal/policy/policy.go:49-51 | the host asked for is `h` of `h:port` and `[h]:port`, in the forms net.SplitHostPort accepts, and otherwise the host as it is |
| Policy.CoveredIff | internal/policy/policy.go:83-96 | a pod is covered if and only if some rule's namespace and selector are met |
| Policy.HasRuleIff | internal/policy/policy.go:101-116 | a host and port pass the gate before the handshake if and only if some rule's host and port are met |
| Policy.MatchPassesGates | internal/policy/policy.go:48-116 | a matched request's pod is covered and its host and port have a rule |
| Policy.MatchedIffMatchable | internal/policy/policy.go:48-80 | a rule that applies to a pod is matched by some request the reader can deliver if and only if its host is addressable, one of its methods is a token and one of its paths begins as paths do |
| Policy.PathWithoutSlash | internal/policy/policy.go:127-134 | a rule whose only path is `api` covers pods and matches nothing |
| Policy.SomeMatchIff | internal/policy/policy.go:48-80 | some deliverable request of a pod is matched if and only if some rule applies to the pod and can be matched |
| Policy.CoveredIffSomeMatch | internal/policy/policy.go:83-96 | when all rules can be matched, a pod is covered if and only if some deliverable request of it would be matched |
| Policy.UnreachableRuleExample | internal/policy/policy.go:48-60 | a bracketed host with a port is not addressable |
| Watcher.UpsertActsAsMap | internal/k8s/watcher.go:239-254 | replacing in place or appending acts on the list as on a map and keeps names unique |
| Watcher.DropActsAsMap | internal/k8s/watcher.go:255-262 | removing acts as on a map because names are unique |
| Watcher.EventEffect | internal/k8s/watcher.go:238-264 | after an event the lists hold exactly the policies held before, but for those of its name: the new one if added or modified, none if deleted |
| Watcher.RelistIsTheList | internal/k8s/watcher.go:184-203 | a relist makes the lists, as a map, the listed policies |
| Watcher.RelistEffect | internal/k8s/watcher.go:184-203 | the policies held afterwards are exactly the listed ones |
| Watcher.ListsRefineMap | internal/k8s/watcher.go:184-267 | after any history of relists and events every (namespace, name) holds the last word on it, names unique and namespaces consistent |
| Watcher.PolicyWatcher.HandlePolicyEvent | internal/k8s/watcher.go:226-267 | an event updates the lists in place so that exactly these policies are held, republishes and triggers |
| Watcher.PolicyWatcher.ListPolicies | internal/k8s/watcher.go:184-203 | the list step replaces the lists, republishes and triggers |
| Watcher.PolicyWatcher.Rebuild | internal/k8s/watcher.go:269-310 | the published rules are a permutation of all rules of all convertible policies, most specific first, whatever the map order and with an unstable sort |
| Watcher.SortBySelector | internal/k8s/watcher.go:301-305 | the result is a permutation in falling order of requirement counts |
| Watcher.PublishedMatchIsBest | internal/k8s/watcher.go:301-318 | no match if and only if no rule matches; otherwise a matching rule with the greatest requirement count |
| Watcher.PolicyWatcher.MatchIsBest | internal/k8s/watcher.go:269-310 | the same of the watcher's own published list against the policies it holds |
| Watcher.RuleIffOnRecord | internal/k8s/watcher.go:277-299 | the rules published are exactly those of policies on record, field by field |
| Watcher.ListAddsRules | internal/k8s/watcher.go:283-297 | each policy of a list adds each of its rules once, with its namespace and selector |
| Enforcer.QuietMeansEnforced | internal/podveth/enforce.go:32-70 | no lost wake-up: with an empty slot, no unsent notice and an idle enforcer, the last round began after the last change; and if it resolved, attached are exactly the veths of resolved pods that are known with their namespace and that some rule is for, but for failed attaches and deleted interfaces |
| Enforcer.SharedIsLatest | main.go:76-103 | policy and pods seen by the enforcer are the last ones written |
| Enforcer.EveryRun | main.go:76-103 | wake-ups, reads and links keep their invariants in every interleaving of watcher, enforcer and netlink |
| Enforcer.ReadsStep | internal/podveth/enforce.go:57-67 | as long as nothing changes, a round's reads add up to exactly the covered veths |
| Enforcer.WakeStep | main.go:94-101 | a change that is not yet enforced has a token in the slot or a sender on its way |
| Links.EveryLinkHasOneOwner | internal/iface/iface.go:65-134 | at every step every link opened is in exactly one place - attacher, map, netlink watcher or closed - and closed once at most |
| Links.ReconcileOutcome | internal/iface/iface.go:104-134 | when Reconcile has returned, the keys are desired, a missing one failed to attach or was deleted since the call, every interface has its two links, and the caller holds none |
| Links.BalancedStep | internal/iface/iface.go:65-100 | every step keeps the books of links |
| LinkManager.Manager.Reconcile | internal/iface/iface.go:104-134 | uninterrupted: attached are exactly the desired interfaces that were there or could be attached; those kept are untouched; all other links are closed once |
| LinkManager.Manager.AttachIndex | internal/iface/iface.go:81-100 | an attach adds the index on success only, and a half-done one closes its ingress link |
| LinkManager.Manager.AttachTCX | internal/iface/iface.go:147-170 | an egress error costs exactly one link, opened and closed |
| LinkManager.Manager.Detach | internal/iface/iface.go:65-79 | the links leave the map and are closed once each |
| LinkManager.EnforceOnce | internal/podveth/enforce.go:50-70 | a failed resolve changes nothing; else attached are exactly the veths of covered pods that were or could be attached |
| LinkManager.WantedVeths | internal/podveth/enforce.go:58-67 | the loop in any order collects exactly the veths of resolved pods that are known with their namespace and that some rule is for |
| Latch.IngressKeepsChecksums | bpf/latch.c:97-127 | after redirection the IP header checksum is valid if and only if it was, for every frame past the filters and every header length and target; the TCP checksum likewise, for every payload, if the announced segment lies within the frame |
| Latch.EgressKeepsChecksums | bpf/latch.c:160-188 | the same for the reply |
| Latch.EntryIsLastDestination | bpf/latch.c:63-132 | in every run with arbitrary losses a present entry is the destination of the last intercepted packet of that source |
| Latch.EntryIsLastWebPacket | bpf/latch.c:63-132 | the same, byte by byte: some packet of the source to port 80 or 443 went to that destination, and no later one of the source was for such a port |
| Latch.ReplyReversesTuple | bpf/latch.c:134-193 | a reply whose entry is present leaves with the reversed endpoints of that packet |
| Latch.ProxyFindsDestination | internal/origdst/origdst.go:15-41 | the proxy's lookup by the redirected packet's source yields the destination before redirection |
| Latch.OnlyRecordedFlowsChange | bpf/latch.c:134-160 | in every run only replies towards a source from which a packet was intercepted before are changed |
| Latch.RewriteEffect | bpf/latch.c:119-127 | a rewrite changes one endpoint and the two checksums, nothing else |
| Latch.Programs.TcIngress | bpf/latch.c:63-132 | read off the bytes: an IPv4 TCP frame with a header of 20 to 60 bytes and a whole TCP header, to port 80 or 443, with a proxy configured, leaves with the proxy as destination, every byte but that and the two checksums unchanged, and its destination kept under its source; for every other frame, frame and table stay |
| Latch.Programs.TcEgress | bpf/latch.c:134-193 | read off the bytes: such a frame towards a source in the table leaves with the destination kept there as its source, other bytes but the checksums unchanged; every other frame stays |
| Latch.Redirect | bpf/latch.c:119-127 | checksum updates and stores in the program's order give the specified frame |
| Checksum.HeaderUpdate | bpf/latch.c:119 | the incremental update of a header is accepted if and only if the header was (RFC 1071 section 1) |
| Checksum.SegmentUpdate | bpf/latch.c:121-123 | with the pseudo header, the sum stays the same modulo 65535 (RFC 9293 section 3.1) |
| Checksum.AcceptsIffMultiple | bpf/latch.c:119-123 | a receiver accepts exactly the positive multiples of 65535: the folded sum is never the all-zero case |
| Sni.PeekInvertsPrint | internal/tlsmitm/sni.go:15-99 | on every printed hello, whatever follows it and whatever server_name extensions it has (with a host name, too short, or malformed), the result is the name of the first that has an entry if and only if the record fits the buffer, else empty |
| Sni.SomeNameIffFits | internal/tlsmitm/sni.go:29-32 | a name is found exactly if the record fits |
| Sni.PeekSNI | internal/tlsmitm/sni.go:15-99 | the cursor stays in bounds and computes that result, consuming nothing; an error means fewer than five bytes, and no name comes from anything but a whole handshake record of at most 16384 bytes that begins a ClientHello |
| Sni.ScanExtensions | internal/tlsmitm/sni.go:70-96 | the extension loop terminates and finds what the recursive description finds |
| LeafCert.GenerationsFarApart | internal/tlsmitm/ca.go:112-177 | generations for one name follow each other, the later beginning no earlier than 300 seconds before the earlier certificate ends, which is 86400 seconds after it was dated or when the authority ends: 23 h 55 min apart if the authority outlives the next 24 h |
| LeafCert.OneGenerationAtATime | internal/tlsmitm/ca.go:125-176 | generations for one name never overlap |
| LeafCert.GeneratesOnlyOnMiss | internal/tlsmitm/ca.go:127-131 | a generation begins if and only if the cache has no entry whose expiry is still to come at the re-check |
| LeafCert.ServedCertsAreValid | internal/tlsmitm/ca.go:118-123 | a certificate served from the cache is for the server name the client has sent, for `unknown` only if it has sent none, and has more than 300 seconds left |
| LeafCert.OwnNameOnly | internal/tlsmitm/ca.go:112-177 | leader and waiters are given certificates for the server name they have sent, for `unknown` only if they have sent none |
| LeafCert.CA.GetCertificate | internal/tlsmitm/ca.go:112-177 | one uninterrupted call for a server name, or `unknown` if there is none: the cached certificate before its expiry; else a new one for that name, for 86400 seconds or as long as the authority lasts, cached until 300 seconds before its end; or a failure with the cache unchanged |
| LeafCert.CA.Generate | internal/tlsmitm/ca.go:125-172 | the single-flight function: re-check, issue, store |

## Left out

- SHA-256: taken to be injective, so a key is its pre-image; hex encoding is left out with it.
- HTTP, TLS and socket I/O, `Splice`, dialing and the wire format: the upstream's answer is an arbitrary
  response or an error; requests are what the HTTP reader delivers (no line breaks in values).
- Text is a sequence of characters: one byte each where the key and the sizes are concerned; white space
  is Unicode's, case folding is ASCII's.
- Header names with line breaks: what rules and Vary lines vary on is assumed to be free of them.
- Keys with bodies across different configurations: body and Vary lines share one undelimited tail, so
  the code does not determine them and nothing is claimed beyond the three cases of `Transparency.Bodies`.
- `Rule.MaxBodyBytes`: the proxy does not consult it, only the global limit.
- Header fields of several lines: the code reads the first line only, and so do the agreement results.
- Agreement on the upstream address: it is not part of the key, so requests with the same Host, or
  without one, share entries whatever address each was sent to.
- The clock: read once per `Set`, and never turned back. `int64` counters of the store do not overflow.
- Evictions as seen by the protocol: `Protocol` lets `Set` evict anything; `Store` proves which ones go.
- `CHECKSUM_PARTIAL` packets, byte order of registers, and the kernel's choice of LRU victims (any entry
  may go at any time); fragments and IP options are bytes like any other.
- Hellos split over several records, and a reader whose buffer is smaller than five bytes.
- Kubernetes clients, JSON, selector conversion (a selector is a list of requirements or does not
  convert), retry backoff, and the resolver (its result is arbitrary).
- Two `Reconcile` calls at once: there is one caller, the enforcer.
- Certificate creation and keys: issuing is a step that succeeds or fails.
- Metrics but for the eviction count, logging, configuration, shutdown and exit codes.
- Store.Cache.Get: describes the call without interruption; its read and its delete are two steps in
  `Protocol`, and `Gap` is about what happens between them.
- LinkManager.Manager.Reconcile: describes the call without interruption; interleaved with netlink it is
  `Links`.
- LeafCert.CA.GetCertificate: describes the call without interruption; handshakes at the same time are
  `LeafCert`'s state machine.
- Proxying.Proxy.HandleRequest: describes the call without interruption; requests at the same time are
  `Protocol`.
