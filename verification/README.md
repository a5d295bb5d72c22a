# OpenFlare edge proxy: cache and rate-limit core, verified

OpenFlare is an HTTP edge proxy. This project models, in Dafny, the part of it in which pieces
depend on each other: the cache-fill protocol, the LRU backend behind it, the rate limiter, and the
normalisation and policy code that decides keys and lifetimes. It proves what those pieces promise
on every input, every sequence of calls and every interleaving.

| Piece | Files | Source |
|---|---|---|
| Cache-fill protocol | `CacheFill*.dfy`, `Handler.dfy` | `proxy/internal/proxy/handler.go` |
| LRU backend | `Lru*.dfy` (values), `MemoryBackend.dfy` (the class) | `proxy/internal/cache/cache.go` |
| Policy and lifetimes | `Policy.dfy`, `Ttl.dfy`, `Http.dfy` | `proxy/internal/cache/policy.go` |
| Keys | `Path.dfy`, `Query.dfy`, `Escaping.dfy`, `CacheKey.dfy`, `KeySharing.dfy`, `Strings.dfy`, `Sorting.dfy` | `proxy/internal/normalize/normalize.go` |
| Rate limiter | `TokenBucket.dfy`, `Limiter.dfy` (the class), `LimiterCharging.dfy`, `LimiterClients.dfy`, `LimiterTheorems.dfy`, `LimiterCleanup.dfy`, `LimiterRetry.dfy`, `LimiterSharing.dfy` | `proxy/internal/ratelimit/limiter.go` |
| Admin purge | `Admin.dfy` | `proxy/internal/admin/handler.go` |

`dafny verify dfyconfig.toml` checks all of it.

How the model is built:

- **The protocol is a machine.** A state holds the clock, the cache, every request with its stage,
  the flights, their results and a log that no step reads. A step is one lock-protected operation or
  the computation between two of them; any request, the clock and the admin can move at any time.
  `singleflight` is taken by its documented contract. The origin answers anything, or fails. The
  safety theorems hold for arbitrary key, bypass, storability and lifetime functions; `Handler.dfy`
  puts in the proxy's own.
- **Classes are proved against values.** `MemoryBackend` and `Limiter` are classes with the fields of
  the program. Each method states its whole effect as an operation on the value the object stands
  for, and the theorems are about those operations. Loops over maps choose keys in arbitrary order.
- **Time is an argument.** `Get`, `Allow` and the clean-up take the instant at which they happen, in
  nanoseconds; the limiter's traces have non-decreasing times.
- **Strings are bytes.** A `char` stands for one byte of a Go string.

Assumptions the theorems need, stated as preconditions: `maxEntries >= 1` and `maxBytes >= 0` for
the cache (`Lru.EvictionStopsIff`: with `maxEntries < 1` the eviction loop cannot stop); rates of at
least one and bursts of at least zero in the enabled rules of the limiter, and for `Retry-After` buckets
that can serve the request and refill for it in a second.

What the proofs brought to light:

- A larger entry limit can turn hits into misses. Growing it from n to m keeps every hit of every
  sequence of calls only if n is m, n is one or the byte limit is zero (`LruGrowth.GrowingKeepsHitsIff`).
- A purge does not stop a flight. An answer given before a purge that takes a key can be cached under
  that key after it exactly when at the purge a request with the key holds an answer it is going to
  store; the same for purges of a key, a path, a prefix and everything (`CacheFillPurge.PurgeOutlivedIff`).
- A GET can be answered with the origin's answer to a HEAD (`Handler.HeadAnswersGet`). Cached entries
  always answer a GET only under policies that let no HEAD into the cache (`Handler.OnlyGetsIff`), and
  responses to GETs always come from GETs only if no cacheable HEAD shares a key with a cacheable GET,
  even when nothing is stored (`Handler.GetAnswersIff`).
- An answer the policy refuses to store still goes to everyone in the flight
  (`CacheFillHistory.AnswerReachesFlight`, `CacheFillWitness.SharedAnswer`).
- A rule restricted to POST, or to one of GET and HEAD, can set the lifetime of responses it does not
  match (`Policy.ScansDisagree`); `Policy.ScansAgreeIff` says for which rule lists this cannot happen.
- `Query` is not idempotent on text that does not parse and starts with `??` (`Query.Idempotent`).
  `Path` is idempotent exactly on the paths that lead down and whose kept segments hold no `%` or do
  not all decode, rooted or not (`Path.IdempotentIff`). The rewritten URL has the key of the original
  exactly when neither of these gets in the way (`CacheKey.KeyStable`).
- `ServeHTTP` normalises a path once and asks the origin for the result, but the key is built from the
  result normalised again. Among requests for which that changes nothing, equal keys mean one URL at
  the origin (`KeySharing.SameOriginUrlIff`). But every request shares its key with another one for
  which the origin sees a different path (`KeySharing.EveryKeyShared`), so it can be served with the
  answer for that path (`KeySharing.OtherPathServed`).
- With bar-free verbs and hosts, a key tells its parts exactly if at most one of path, query and
  encodings may hold a bar (`KeySharing.TellsApartIff`); bars in the path alone do no harm. A path purge
  also takes paths that continue the given one with a bar, and a path that holds a bar cannot be purged
  by path (`CacheKey.PathExact`).
- A lifetime above 9223372036 seconds wraps: `max-age=18446744074` is read as 0.29 seconds
  (`Ttl.HugeLifetimeWraps`). Lifetimes are always positive exactly if the nanoseconds of each rule that
  decides some path, and of the default unless the rules decide every path, are between 1 and 2^63 - 1
  modulo 2^64 (`Policy.AlwaysPositiveIff`).
- The limiter's clean-up can change answers. It never does if no bucket that can be created holds more
  than the refill of five minutes and a nanosecond, and rules that can create one bucket agree on it.
  That condition is exact for rules that can be exposed: rules that can create one bucket have one rate,
  and each has a request whose matching rules use different buckets and whose earlier rules refill faster
  or hold as much
  (`LimiterCleanup.CleanupInvisibleIff`). The shipped rules meet both (`LimiterCleanup.ShippedIsInvisible`,
  `ShippedIsExposable`). A request never passes if more of its matching rules share a bucket than the
  bucket ever holds tokens (`LimiterSharing.SharedBucketNeverPasses`, `CanPassIff`).
- With distinct colon-free rule ids every client is answered as if it were alone
  (`LimiterClients.OthersDoNotMatter`); for rules of kind `api_key` all requests without a key are one
  client, and so is whoever names the key `anonymous` (`LimiterClients.SameBucketIff`).
- `docs/03-cache-strategy.md` says that keys lower-case the path, drop duplicate parameters and
  reduce encodings to categories. The code does none of these, and the model follows the code.

## Model

| member | source | states |
|---|---|---|
| CacheFillSafety.StepInv | edge-proxy-poc/proxy/internal/proxy/handler.go:186-249 | every step of any request, the clock or the admin keeps the protocol invariant: one leader per flight, keys absent between second lookup and store, nobody stranded, log and cache in agreement |
| CacheFillTheorems.OneFetchPerKey | edge-proxy-poc/proxy/internal/proxy/handler.go:200-231 | in every reachable state two requests that lead flights of one key are the same request, so at most one origin fetch per key is in flight |
| CacheFillTheorems.KeyAbsentWhileFetching | edge-proxy-poc/proxy/internal/proxy/handler.go:200-221 | from a leader's second lookup to its store every lookup of its key misses, and storing it overwrites nothing |
| CacheFillTheorems.RemovalBeforeRefill | edge-proxy-poc/proxy/internal/proxy/handler.go:200-221 | between a store of a key and the next fetch or store of that key the entry has been dropped |
| CacheFillTheorems.CachedFromOrigin | edge-proxy-poc/proxy/internal/proxy/handler.go:206-221 | every cached entry is the latest un-dropped store of its key and is an origin answer to a request with that key, storable, with status, headers and body unchanged and the lifetime of the request's path, stamped between the answer and the store |
| CacheFillTheorems.HitIsLatestAndFresh | edge-proxy-poc/proxy/internal/proxy/handler.go:162-190 | a hit serves the latest un-dropped store of the key, only to a request that does not bypass the cache, and within its lifetime counted from an instant between the origin's answer and the store |
| CacheFillTheorems.MissMeansNothingFresh | edge-proxy-poc/proxy/internal/cache/cache.go:82-103 | a first lookup misses only if nothing is held under the key or what is held has outlived its lifetime |
| CacheFillTheorems.FanOut | edge-proxy-poc/proxy/internal/proxy/handler.go:233-249 | everyone in a flight is answered with the result of its leader, who asked for the same key |
| CacheFillHistory.AnswerReachesFlight | edge-proxy-poc/proxy/internal/proxy/handler.go:206-249 | what the origin says to a flight's leader is what everyone in the flight is answered with: a failure as an error, an answer that may not be stored as it is, a storable one as the stored entry |
| CacheFillHistory.ResponseFromOrigin | edge-proxy-poc/proxy/internal/proxy/handler.go:176-249 | the status, headers and body of every hit and every miss are what the origin answered to a request with the same key that does not bypass the cache |
| CacheFillHistory.StepHistory | edge-proxy-poc/proxy/internal/proxy/handler.go:186-249 | every step keeps the second invariant: only requests past the fetch have an answer in the log, only requests past the store have stored, and whatever is handed out the origin has said |
| CacheFillHistory.OnlyLeadersAsk | edge-proxy-poc/proxy/internal/proxy/handler.go:200-231 | in every reachable state the origin has only been asked by the leaders of flights, each with its own request |
| CacheFillAnswers.EveryAnswerJustified | edge-proxy-poc/proxy/internal/proxy/handler.go:162-249 | in every reachable state every answer has its reason: a bypass the rules, a hit the request's own first lookup, a miss the second lookup of the flight's leader or what the origin told the leader, a gateway error a failure of the origin when the leader asked it |
| CacheFillAnswers.BypassedIff | edge-proxy-poc/proxy/internal/proxy/handler.go:162-174 | a request is answered without the cache if and only if the rules make it bypass |
| CacheFillAnswers.FirstLookupDecides | edge-proxy-poc/proxy/internal/proxy/handler.go:184-190 | an entry found by the first lookup is what the request is answered with; a request that finds none is answered from a flight |
| CacheFillAnswers.SecondLookupDecides | edge-proxy-poc/proxy/internal/proxy/handler.go:201-249 | an entry found by a leader's second lookup is what everyone in its flight is answered with; if it finds none, they are answered with what the origin's answer leads to |
| CacheFillAnswers.StorableIsStored | edge-proxy-poc/proxy/internal/proxy/handler.go:211-221 | every storable answer of the origin has been stored before anyone is answered with it |
| CacheFillAnswers.StepTold | edge-proxy-poc/proxy/internal/proxy/handler.go:162-249 | every step keeps the third invariant: each result and each answer is explained by the log, and each logged lookup and answer has led to what it must |
| CacheFillPurge.PurgeOutlivedIff | edge-proxy-poc/proxy/internal/proxy/handler.go:206-221 | in every reachable state, for every purge of a key, a path, a prefix or everything: it can be followed by a cache holding under a key an answer given before it if and only if at the purge a request with that key is about to store or has an answer that will be stored, or the key is held and the purge does not select it |
| CacheFillTheorems.NoOneStranded | edge-proxy-poc/proxy/internal/proxy/handler.go:200-233 | a waiter's leader still leads the flight of its key, or its result is there to collect |
| CacheFillProgress.NeverStuck | edge-proxy-poc/proxy/internal/proxy/handler.go:162-250 | in every reachable state with an unanswered request, that request or the leader it waits for can take a step, whatever the origin answers |
| CacheFillProgress.BoundedWork | edge-proxy-poc/proxy/internal/proxy/handler.go:162-250 | without new arrivals every run has at most as many request steps as the measure of its first state, whatever clock and admin do |
| CacheFillCounting.CountingIdentities | edge-proxy-poc/proxy/internal/cache/cache.go:82-125 | stores are entries held plus evictions plus expired plus purged entries; hits plus misses are request lookups plus flights led, less the flights about to look up; hits are the requests answered with one plus the second lookups that found something; bypasses are the requests answered without the cache |
| CacheFillErasure.BypassErasure | edge-proxy-poc/proxy/internal/proxy/handler.go:162-174 | deleting the bypassed requests from any run leaves a run with the same responses, entries, order, log, flights, results and counters except `bypasses` |
| CacheFillWitness.SharedEntry | edge-proxy-poc/proxy/internal/proxy/handler.go:176-190 | under any limits and for any two cacheable requests with one key there is a run in which the second is a hit on the first one's answer |
| CacheFillWitness.EntryExpires | edge-proxy-poc/proxy/internal/cache/cache.go:82-103 | under any limits there is for every waiting time a run in which a second request comes that long after the store, and it is a hit if and only if that is within the lifetime |
| CacheFillWitness.SharedAnswer | edge-proxy-poc/proxy/internal/proxy/handler.go:200-249 | under any limits there is a run in which two requests with one key are both answered with an answer the policy refuses to store |
| CacheFillWitness.FillAfterPurge | edge-proxy-poc/proxy/internal/proxy/handler.go:206-221 | under any limits there is a run in which an answer given before a purge of everything is cached after it |
| CacheFillWitness.AlwaysApartIff | edge-proxy-poc/proxy/internal/proxy/handler.go:176-249 | for every kind of request, given that some answer is not storable: in every reachable state all hits and misses of requests of the kind are what the origin told one of the kind with the same key, if and only if no two cacheable requests with one key differ in the kind |
| Handler.CachedIsPublic | edge-proxy-poc/proxy/internal/cache/policy.go:54-141 | under any policy every cached entry answers a cacheable GET or HEAD with its key, without `Authorization` or `Cookie` if the policy bypasses these; it is a 2xx without `no-store`, `private` or `no-cache` in its directive list, sets no cookie if the policy never stores those, has the lifetime the policy gives, and its key starts with `GET` and a bar |
| Handler.PublicIsCached | edge-proxy-poc/proxy/internal/cache/policy.go:86-116 | every 2xx answer of the origin to a cacheable request that mentions none of the three words and sets no cookie, or may, has been stored when its request is answered |
| Handler.BypassedIff | edge-proxy-poc/proxy/internal/cache/policy.go:54-83 | in every reachable state a request has been answered without the cache if and only if it is no GET or HEAD, carries a header the policy bypasses or the mark of the WAF, or its first matching rule is not eligible |
| Handler.HeadAnswersGet | edge-proxy-poc/proxy/internal/normalize/normalize.go:97-102 | HEAD and GET share a key, so under any limits there is a run in which a GET is answered with the body of the answer to a HEAD |
| Handler.OnlyGetsIff | edge-proxy-poc/proxy/internal/cache/policy.go:54-83 | in every reachable state every cached entry answers a GET if and only if the policy makes every HEAD request bypass the cache |
| Handler.GetAnswersIff | edge-proxy-poc/proxy/internal/cache/policy.go:54-83 | in every reachable state every hit and every miss of a GET is what the origin told a GET with the same key if and only if the policy never lets a HEAD and a GET with one key into the cache |
| KeySharing.SameKeyIff | edge-proxy-poc/proxy/internal/normalize/normalize.go:97-109 | requests with bar-free verbs and hosts have one key if and only if method, host and the pieces between the bars of path, query and encodings are the same, and if only one of these three holds bars, if and only if all parts are |
| KeySharing.KeyCanonical | edge-proxy-poc/proxy/internal/normalize/normalize.go:14-109 | two requests that a second normalisation leaves alone, with bar-free verbs and hosts and bars in at most one of path, query and encodings, have one key after rewriting if and only if method, host, kept path segments with trailing slash, multiset of decoded pairs (or text that does not parse) and multiset of encodings are the same |
| KeySharing.SameOriginUrlIff | edge-proxy-poc/proxy/internal/proxy/handler.go:274-277 | a request that shares its key with one that a second normalisation leaves alone, with bars as above, makes the origin see the same path and query if and only if a second normalisation leaves it alone too |
| KeySharing.EveryKeyShared | edge-proxy-poc/proxy/internal/proxy/handler.go:118-122 | for every request there is another that differs only in its path, has the same key after rewriting, and makes the origin see a different path |
| KeySharing.OtherPathServed | edge-proxy-poc/proxy/internal/proxy/handler.go:176-190 | so under any limits there is a run in which a request is a hit on the answer the origin gave for another path, for every request the policy caches whatever its path |
| KeySharing.TellsApartIff | edge-proxy-poc/proxy/internal/normalize/normalize.go:97-109 | with bar-free verbs and hosts, equal keys of rewritten requests have equal parts for all requests of a class if and only if the class allows bars in at most one of path, query and encodings |
| KeySharing.PathAndQueryCollide | edge-proxy-poc/proxy/internal/normalize/normalize.go:108 | whenever both spellings are left alone by the normalisation, path `x` bar `y` with query `z` has the key of path `x` with query `y` bar `z`, though paths and queries differ |
| KeySharing.QueryAndCodingsCollide | edge-proxy-poc/proxy/internal/normalize/normalize.go:108 | the same for a query that takes the front of the encodings |
| KeySharing.PathAndCodingsCollide | edge-proxy-poc/proxy/internal/normalize/normalize.go:108 | the same for a path that takes the query, which takes the front of the encodings |
| Lru.EvictLongestPrefix | edge-proxy-poc/proxy/internal/cache/cache.go:115-118 | what eviction leaves is the longest prefix of the recency order that fits both limits |
| Lru.EvictionStopsIff | edge-proxy-poc/proxy/internal/cache/cache.go:115-118 | the eviction loop has a list at which it stops if and only if `maxEntries` is at least one |
| Lru.RunValid | edge-proxy-poc/proxy/internal/cache/cache.go:82-192 | after every sequence of calls keys are distinct, entries are at most `maxEntries`, and bytes are at most `maxBytes` unless one entry is held alone |
| Lru.GetShrinks | edge-proxy-poc/proxy/internal/cache/cache.go:82-103 | a lookup keeps every entry on a hit, loses exactly its own expired entry on a miss, and returns an unexpired entry that was held |
| Lru.SetKeepsMost | edge-proxy-poc/proxy/internal/cache/cache.go:106-125 | a store puts its entry in front and keeps the longest run of the most recent other entries that fits beside it; exactly the lost keys are counted as evicted, a replaced entry is not |
| Lru.SetFinds | edge-proxy-poc/proxy/internal/cache/cache.go:106-125 | after a store the key holds the new entry and every other key that is left holds what it held |
| LruRecency.RecencyIsLastUse | edge-proxy-poc/proxy/internal/cache/cache.go:82-125 | after any calls the order of the list is the order of last lookup or store, read off the calls alone |
| LruRecency.EvictsLeastRecent | edge-proxy-poc/proxy/internal/cache/cache.go:106-125 | whatever a store evicts was last used before everything it keeps |
| LruInclusion.InclusionOverRuns | edge-proxy-poc/proxy/internal/cache/cache.go:82-192 | on the same calls the smaller cache stays a subsequence of the larger, the length gap stays within the difference of the limits, and every hit of the smaller is the same hit in the larger |
| LruInclusion.GrowingKeepsHits | edge-proxy-poc/proxy/internal/cache/cache.go:82-192 | the same from empty caches with limits n <= m, on every run on which the byte limit does not bind in the larger |
| LruGrowth.GrowingKeepsHitsIff | edge-proxy-poc/proxy/internal/cache/cache.go:82-192 | for limits n <= m, every hit of every sequence of calls with n is the same hit with m if and only if n is m, n is one, or the byte limit is zero |
| LruGrowth.BytesBreakInclusion | edge-proxy-poc/proxy/internal/cache/cache.go:115-118 | for all other limits there are calls on which a hit with n is a miss with m |
| MemoryBackend.MemoryBackend.Get | edge-proxy-poc/proxy/internal/cache/cache.go:82-103 | keeps the representation and does to the object what the lookup does to the value: miss, drop of an expired entry, or hit with move to front |
| MemoryBackend.MemoryBackend.Set | edge-proxy-poc/proxy/internal/cache/cache.go:106-125 | terminates, keeps the representation and does to the object what the store does to the value |
| MemoryBackend.MemoryBackend.RemoveElement | edge-proxy-poc/proxy/internal/cache/cache.go:226-234 | takes one element out of map, list and byte total, which stays the exact sum, so the clamp changes nothing |
| MemoryBackend.MemoryBackend.EvictFor | edge-proxy-poc/proxy/internal/cache/cache.go:115-118 | the eviction loop leaves what the specification keeps and counts each eviction |
| MemoryBackend.MemoryBackend.Delete | edge-proxy-poc/proxy/internal/cache/cache.go:128-138 | removes the key and reports whether it was there |
| MemoryBackend.MemoryBackend.DeleteByPrefix | edge-proxy-poc/proxy/internal/cache/cache.go:141-159 | in whatever order the map is iterated, removes exactly the selected keys, keeps the order of the rest and returns the number removed |
| MemoryBackend.MemoryBackend.DeleteByPath | edge-proxy-poc/proxy/internal/cache/cache.go:162-180 | the same for an exact path |
| MemoryBackend.MemoryBackend.Purge | edge-proxy-poc/proxy/internal/cache/cache.go:183-192 | removes every entry, keeps the counters and returns the number removed |
| MemoryBackend.MemoryBackend.Size | edge-proxy-poc/proxy/internal/cache/cache.go:195-217 | reports the number of entries, which is also the size of the map, and the exact byte total, within the limits |
| Admin.HandleCachePurge | edge-proxy-poc/proxy/internal/admin/handler.go:78-107 | afterwards the target is not held; if it was, exactly that entry is gone; if not and it starts with a slash, exactly the entries whose third part it is are gone; otherwise nothing is; the rest is unchanged, and `deleted` is true if and only if an entry went |
| Admin.PurgeTakesExactly | edge-proxy-poc/proxy/internal/admin/handler.go:95-101 | the same of the specification, for every target |
| Admin.PathPurgeIsExact | edge-proxy-poc/proxy/internal/admin/handler.go:95-101 | on keys printed for GET and a bar-free host a purge of a path is never an exact delete and takes exactly the entries whose path is the given bar-free one or continues it with a bar |
| Admin.PrefixPurgeIsExact | edge-proxy-poc/proxy/internal/cache/cache.go:141-159 | on such keys a bar-free prefix purges exactly the entries whose normalised path starts with it, and a prefix that holds a bar nothing |
| Admin.ReachableHandlerKeys | edge-proxy-poc/proxy/internal/proxy/handler.go:176-182 | in every reachable state of the proxy, with bar-free hosts, the cache holds only such keys |
| Admin.PathPurgeTakes | edge-proxy-poc/proxy/internal/admin/handler.go:95-101 | in every such state a purge of a path takes an entry if and only if the normalised path of the request that stored it is the given bar-free one or continues it with a bar |
| Admin.PrefixPurgeTakes | edge-proxy-poc/proxy/internal/cache/cache.go:141-159 | in every such state a purge of a prefix takes an entry if and only if the prefix holds no bar and that path starts with it |
| Http.HeaderGetIs | edge-proxy-poc/proxy/internal/cache/policy.go:91 | only the first line of a header is read, and a missing header reads as empty |
| CacheKey.SplitCacheKey | edge-proxy-poc/proxy/internal/cache/cache.go:256-267 | the scan splits at the bars, and joining the parts gives the key back |
| CacheKey.PrefixExact | edge-proxy-poc/proxy/internal/cache/cache.go:246-254 | with bar-free method and host, a key is selected if and only if the prefix holds no bar and its path starts with it |
| CacheKey.PathExact | edge-proxy-poc/proxy/internal/cache/cache.go:168-174 | with bar-free method and host, a key is selected if and only if the given path is bar-free and is the key's path or is continued by it with a bar |
| CacheKey.KeyStable | edge-proxy-poc/proxy/internal/proxy/handler.go:118-122 | the key from the rewritten URL is the key of the original request if and only if normalising is idempotent on the path and the query parses or does not start with `??` |
| CacheKey.HandlerKey | edge-proxy-poc/proxy/internal/normalize/normalize.go:97-109 | keys of GET and HEAD requests start with `GET` and a bar |
| CacheKey.NormalizeAcceptEncoding | edge-proxy-poc/proxy/internal/normalize/normalize.go:76-94 | the loop returns the sorted, comma-joined names of the header |
| CacheKey.AcceptEncodingCanonical | edge-proxy-poc/proxy/internal/normalize/normalize.go:76-94 | two headers normalise alike if and only if they name the same multiset of encodings |
| CacheKey.HeaderLists | edge-proxy-poc/proxy/internal/normalize/normalize.go:81-90 | two headers joined by a comma name what the first names followed by what the second names |
| CacheKey.PartNames | edge-proxy-poc/proxy/internal/normalize/normalize.go:86-90 | a stretch without commas names, in small letters, what it holds before the first semicolon without the white space around it, and nothing if that is empty |
| CacheKey.NoHeader | edge-proxy-poc/proxy/internal/normalize/normalize.go:77-79 | a missing header normalises to `identity` |
| CacheKey.NamesAscend | edge-proxy-poc/proxy/internal/normalize/normalize.go:92-93 | the output is the comma-joined list of the names in the order of their bytes |
| CacheKey.KeyMethodIff | edge-proxy-poc/proxy/internal/normalize/normalize.go:98-102 | two verbs have one key if and only if they are equal up to case or both are GET or HEAD |
| Query.NormalizeQuery | edge-proxy-poc/proxy/internal/normalize/normalize.go:42-73 | grouping by key, sorting keys and values and printing in nested loops gives the canonical form, in whatever order the map is iterated |
| Query.CanonicalForm | edge-proxy-poc/proxy/internal/normalize/normalize.go:42-73 | for queries that parse, outputs are equal if and only if the multisets of decoded pairs are |
| Query.CanonicalKeepsMeaning | edge-proxy-poc/proxy/internal/normalize/normalize.go:62-72 | the output of a query that parses denotes the multiset of pairs of the input |
| Query.Idempotent | edge-proxy-poc/proxy/internal/normalize/normalize.go:42-73 | normalising twice is normalising once if and only if the query parses or does not start with `??` |
| Query.ParsePrint | edge-proxy-poc/proxy/internal/normalize/normalize.go:50-72 | every printed list of pairs parses back to that list |
| Query.StretchesDenote | edge-proxy-poc/proxy/internal/normalize/normalize.go:50 | a query of two stretches joined by `&` denotes the pairs of the first followed by those of the second, and nothing if either does not parse |
| Query.SegmentDenotes | edge-proxy-poc/proxy/internal/normalize/normalize.go:50 | an empty stretch denotes nothing; one without `=` its decoded name with the empty value; otherwise the first `=` parts the decoded name from the decoded value; a semicolon or an escape that does not decode is an error |
| Query.LoneName | edge-proxy-poc/proxy/internal/normalize/normalize.go:62-72 | a parameter without `=` keeps its name: the form of an escaped name `k` is `k` followed by `=` |
| Query.QuestionIgnored | edge-proxy-poc/proxy/internal/normalize/normalize.go:47-48 | one leading question mark changes nothing |
| Query.CanonicalAscends | edge-proxy-poc/proxy/internal/normalize/normalize.go:55-70 | the pairs of the output ascend by name and then by value, byte by byte |
| Escaping.UnescapeEscape | edge-proxy-poc/proxy/internal/normalize/normalize.go:68 | decoding undoes query escaping for every string |
| Escaping.EscapeReads | edge-proxy-poc/proxy/internal/normalize/normalize.go:20 | a percent sign and two hexadecimal digits of either case decode to the byte they denote, for all 256 bytes, in paths and queries |
| Escaping.OtherReads | edge-proxy-poc/proxy/internal/normalize/normalize.go:20 | every other character stands for itself, but a plus sign for a blank in queries |
| Escaping.BrokenFails | edge-proxy-poc/proxy/internal/normalize/normalize.go:20-23 | a percent sign without two hexadecimal digits behind it makes decoding fail |
| Escaping.EscapeWrites | edge-proxy-poc/proxy/internal/normalize/normalize.go:68 | query escaping leaves letters, digits and `-._~` alone, writes a blank as a plus sign and every other byte with two capital digits |
| Path.NormalizePath | edge-proxy-poc/proxy/internal/normalize/normalize.go:14-39 | the step-by-step rewriting computes the normal form the theorems speak about |
| Path.NormalIsNormalForm | edge-proxy-poc/proxy/internal/normalize/normalize.go:14-39 | on a path whose decoding is rooted the result is rooted and has no dot segment and no inner empty segment |
| Path.NormalFormIff | edge-proxy-poc/proxy/internal/normalize/normalize.go:14-39 | the result for a non-empty path is rooted, and is free of dot segments and inner empty segments if and only if the decoded path is rooted or leads below its start |
| Path.CanonicalPath | edge-proxy-poc/proxy/internal/normalize/normalize.go:14-39 | two paths that are empty, rooted or lead below their start normalise alike if and only if they keep the same segments and agree on the trailing slash |
| Path.DetoursVanish | edge-proxy-poc/proxy/internal/normalize/normalize.go:25-26 | empty segments, `.` and `name/..` anywhere in a path, rooted or relative, change nothing about what is kept of it |
| Path.ClimbsStay | edge-proxy-poc/proxy/internal/normalize/normalize.go:25-26 | of climbs followed by names a rooted path keeps the names and a relative one everything |
| Path.IdempotentIff | edge-proxy-poc/proxy/internal/normalize/normalize.go:14-39 | for every path, normalising twice is normalising once if and only if the path is empty, or is rooted or leads below its start and the segments it keeps hold no `%` or fail to decode |
| Path.Idempotent | edge-proxy-poc/proxy/internal/normalize/normalize.go:14-39 | it is when the decoded path is rooted and `%`-free |
| Path.RelativeIsNotNormal | edge-proxy-poc/proxy/internal/normalize/normalize.go:28-31 | a relative path can keep a leading `..` that a second call removes |
| Policy.IsRequestCacheable | edge-proxy-poc/proxy/internal/cache/policy.go:54-83 | the scan decides by method, headers and the first matching rule, and gives the reason of the first test that refuses |
| Policy.CacheableIff | edge-proxy-poc/proxy/internal/cache/policy.go:54-83 | a request is cacheable if and only if it is a GET or HEAD without a header the policy bypasses and whose first matching rule, if any, is eligible |
| Policy.RuleMatchesIff | edge-proxy-poc/proxy/internal/cache/policy.go:143-174 | a rule matches by exact path if it has one, else by prefix if it has one, else by regular expression, and by verb without case if it lists any |
| Policy.IsResponseStorable | edge-proxy-poc/proxy/internal/cache/policy.go:86-116 | the tests accept exactly the storable responses and give the reason of a refusal |
| Policy.StorableIff | edge-proxy-poc/proxy/internal/cache/policy.go:86-116 | a response is storable if and only if it is a 2xx whose first `Cache-Control` line mentions none of the three words, in any case, and it sets no cookie or the policy stores those |
| Policy.StorableIsSafe | edge-proxy-poc/proxy/internal/cache/policy.go:86-116 | a storable response is a 2xx without `no-store`, `private` or `no-cache` under a proper reading of the comma-separated list |
| Policy.DetermineTTL | edge-proxy-poc/proxy/internal/cache/policy.go:119-141 | the scan returns the lifetime of the first rule that matches and sets one, else what the origin prints, else the default |
| Policy.OriginLifetime | edge-proxy-poc/proxy/internal/cache/policy.go:127-137 | without a rule lifetime a printed `s-maxage` up to the int64 bound is obeyed exactly, and a printed `max-age` when there is no `s-maxage` or it gives no seconds |
| Policy.DefaultLifetime | edge-proxy-poc/proxy/internal/cache/policy.go:127-140 | without a rule lifetime, when `Cache-Control` is not respected or gives no positive seconds, the lifetime is the default, exactly up to the int64 bound |
| Policy.AlwaysPositiveIff | edge-proxy-poc/proxy/internal/cache/policy.go:119-141 | the lifetime is positive for all paths and headers if and only if it is for every rule that decides some path and, unless the rules decide every path, for the default: their nanoseconds modulo 2^64 lie between 1 and 2^63 - 1 |
| Policy.RuleLifetimeSign | edge-proxy-poc/proxy/internal/cache/policy.go:119-125 | a lifetime set by a rule is positive if and only if its nanoseconds modulo 2^64 lie between 1 and 2^63 - 1, and negative if and only if they are at least 2^63 |
| Policy.TtlPositive | edge-proxy-poc/proxy/internal/cache/policy.go:119-141 | with default and rule lifetimes up to the int64 bound every lifetime is positive and those of rules are exact |
| Policy.RuleLifetimeExact | edge-proxy-poc/proxy/internal/cache/policy.go:119-125 | a lifetime set by a rule is exact if and only if it is at most 9223372036 seconds |
| Policy.HugeRuleLifetimeIsNegative | edge-proxy-poc/proxy/internal/cache/policy.go:119-125 | every rule lifetime from 9223372037 to 18446744073 seconds makes the lifetime of the stored entry negative |
| Policy.ScansAgreeIff | edge-proxy-poc/proxy/internal/cache/policy.go:70-125 | the scan for eligibility and the scan for the lifetime agree on every GET and HEAD if and only if no two rules with lifetimes match one path such that only the later takes the verb and no earlier rule takes both |
| Policy.ScansAgree | edge-proxy-poc/proxy/internal/cache/policy.go:70-79 | they agree if no rule tells GET from HEAD: the rule that decides eligibility is the first path match, and its lifetime, when set, is the response's |
| Policy.ScansDisagree | edge-proxy-poc/proxy/internal/cache/policy.go:119-125 | they disagree for any two rules with lifetimes of which the first matches the path but not the verb: its lifetime is the response's, though the second rule decides |
| Ttl.ParseCCDirective | edge-proxy-poc/proxy/internal/cache/policy.go:187-210 | cutting the value and accumulating its digits with int64 wrap-around gives the wrapped decimal value after the first occurrence of the directive |
| Ttl.WrapDigit | edge-proxy-poc/proxy/internal/cache/policy.go:198-205 | wrapping at every digit equals wrapping once at the end |
| Ttl.DirectiveExact | edge-proxy-poc/proxy/internal/cache/policy.go:187-210 | a printed lifetime n is read as exactly n seconds if and only if n is at most 9223372036 |
| Ttl.HugeLifetimeWraps | edge-proxy-poc/proxy/internal/cache/policy.go:206-209 | a printed lifetime of 18446744074 seconds is read as 290448384 nanoseconds |
| Limiter.Limiter.Allow | edge-proxy-poc/proxy/internal/ratelimit/limiter.go:52-91 | the loop charges the matching rules in order up to the first denial, creating buckets as needed, and names the denying rule, which is enabled and applies to the path; an exempt request, or one that no rule applies to, passes and leaves every bucket alone |
| Limiter.AppliesIff | edge-proxy-poc/proxy/internal/ratelimit/limiter.go:61-70 | a rule leaves a request alone, whatever the buckets, if and only if it is disabled or its prefix is not one of the path |
| Limiter.OthersIgnored | edge-proxy-poc/proxy/internal/ratelimit/limiter.go:61-70 | such rules can be left out of the list |
| LimiterClients.SameBucketIff | edge-proxy-poc/proxy/internal/ratelimit/limiter.go:104-119 | a rule charges two requests to one bucket if and only if they come from one client: one API key for `api_key`, a missing one being `anonymous`, and one address for every other kind |
| LimiterClients.SharedBucketsIff | edge-proxy-poc/proxy/internal/ratelimit/limiter.go:104-119 | two rules with colon-free ids charge two requests to one bucket if and only if the ids and kinds are equal and so are address, API key, or address and prefix joined by a colon |
| LimiterClients.OthersDoNotMatter | edge-proxy-poc/proxy/internal/ratelimit/limiter.go:52-190 | with distinct colon-free ids, leaving out of any trace all requests that no enabled rule takes for the same client's as a kept one changes none of the other answers, clean-ups or not |
| LimiterClients.AddressesAreAlone | edge-proxy-poc/proxy/internal/ratelimit/limiter.go:52-190 | where no enabled rule is of kind `api_key`, every address is answered on every trace as if it were alone |
| LimiterClients.ApiKeysAreAlone | edge-proxy-poc/proxy/internal/ratelimit/limiter.go:52-190 | where every enabled rule is, so is every API key |
| Limiter.Limiter.GetLimiter | edge-proxy-poc/proxy/internal/ratelimit/limiter.go:121-148 | finds the bucket of a key or creates it full, and notes when it was seen |
| Limiter.Limiter.Cleanup | edge-proxy-poc/proxy/internal/ratelimit/limiter.go:176-190 | forgets exactly the buckets last seen more than 300000000000 nanoseconds ago, in whatever order the map is iterated |
| LimiterTheorems.CleanupIsInvisible | edge-proxy-poc/proxy/internal/ratelimit/limiter.go:121-190 | on every trace the limiter that forgets gives the answers of one that never does, if no bucket that a rule can create holds more than the refill of five minutes and a nanosecond and rules that can create one bucket agree on it |
| LimiterCleanup.CleanupInvisibleIff | edge-proxy-poc/proxy/internal/ratelimit/limiter.go:104-190 | if rules that can create one bucket have one rate and requests for one bucket that can expose them (rules matching the request use different buckets, and those before the rule refill at a pace at which it does not or hold as many tokens), the clean-up is invisible on every trace if and only if no bucket that can be created holds more than the refill of the idle time and rules that can create one bucket agree on it |
| LimiterCleanup.CleanRulesInvisibleIff | edge-proxy-poc/proxy/internal/ratelimit/limiter.go:104-190 | with distinct colon-free ids, overlapping prefixes or not, if every rule that can create a bucket has a request that can expose it, the clean-up is invisible on every trace if and only if no such bucket holds more than the refill of the idle time |
| LimiterCleanup.LargeBurstShows | edge-proxy-poc/proxy/internal/ratelimit/limiter.go:121-190 | for every rule, of any rate, whose burst exceeds the refill of the idle time and which some request can expose, there is a trace on which the clean-up changes an answer |
| LimiterCleanup.OneRuleInvisibleIff | edge-proxy-poc/proxy/internal/ratelimit/limiter.go:176-190 | for one rule of any rate the clean-up is invisible on every trace if and only if the burst is at most the refill of five minutes and a nanosecond, 300.000000001 times the rate |
| LimiterCleanup.TwoRulesInvisibleIff | edge-proxy-poc/proxy/internal/ratelimit/limiter.go:104-190 | for two rules of one rate with requests for one bucket that can expose each, it is if and only if the bursts are equal and at most that refill |
| LimiterCleanup.SharedParametersShow | edge-proxy-poc/proxy/internal/ratelimit/limiter.go:104-148 | for any two rules that can be exposed by requests for one bucket and have different bursts, where the larger burst refills no slower or can be exposed at one instant, there is a trace on which the clean-up changes an answer |
| LimiterCleanup.ShippedIsInvisible | edge-proxy-poc/configs/rate-limit.yaml:2-21 | under the three shipped rules the clean-up is invisible on every trace |
| LimiterCleanup.ShippedIsExposable | edge-proxy-poc/configs/rate-limit.yaml:2-21 | every request that a shipped rule matches can expose it, although the rules overlap |
| LimiterTheorems.KeyTellsId | edge-proxy-poc/proxy/internal/ratelimit/limiter.go:104-119 | with colon-free ids two equal bucket keys come from rules with one id |
| LimiterTheorems.CleanIdsAreConsistent | edge-proxy-poc/proxy/internal/ratelimit/limiter.go:104-119 | with distinct colon-free ids rules that can create one bucket agree on its rate and burst |
| LimiterTheorems.RateBound | edge-proxy-poc/proxy/internal/ratelimit/limiter.go:52-190 | for every bucket, trace and window of length T at most burst plus rate times T charges are admitted, across refills, denials, creation and clean-up, for any burst and rate that no rule that can create the bucket exceeds and that fit the idle time |
| LimiterCharging.DenialCharges | edge-proxy-poc/proxy/internal/ratelimit/limiter.go:60-90 | from any state, a request has taken exactly one token for every matching rule before the denying one, several from a bucket they share, and none from it on, and that one had no token |
| LimiterCharging.PassesIff | edge-proxy-poc/proxy/internal/ratelimit/limiter.go:60-90 | a request passes if and only if every bucket it uses holds a token for each rule that charges it there |
| LimiterRetry.RetryAfterOneSecond | edge-proxy-poc/proxy/internal/ratelimit/limiter.go:94-97 | after a request, denied or not, if for a second no other request touches its buckets, the retry passes every matching rule, clean-ups or not, provided that for each bucket neither burst nor rate of any rule that can create it is below the number of rules that charge the request to it |
| LimiterRetry.CleanIdsAreAmple | edge-proxy-poc/proxy/internal/ratelimit/limiter.go:104-119 | with distinct colon-free ids bursts of at least one are enough for that |
| LimiterSharing.SharedBucketNeverPasses | edge-proxy-poc/proxy/internal/ratelimit/limiter.go:60-119 | when more of the rules that match a request share a bucket than any rule that can create it lets it hold, the request is denied in every reachable state, whatever the rates; so two rules with one id and bursts of one never let a request pass |
| LimiterSharing.CanPassIff | edge-proxy-poc/proxy/internal/ratelimit/limiter.go:60-119 | when rules that can create one bucket agree on it, a request is admitted in some reachable state if and only if no bucket is asked by more of its matching rules than its burst |
| TokenBucket.AvailLater | edge-proxy-poc/proxy/internal/ratelimit/limiter.go:142 | what a bucket holds later depends only on what it holds now: refill at the rate, up to the burst |
| TokenBucket.TakeFacts | edge-proxy-poc/proxy/internal/ratelimit/limiter.go:78 | a charge takes one token exactly when there is one and leaves the bucket alone otherwise |
| TokenBucket.ClockBackwards | edge-proxy-poc/proxy/internal/ratelimit/limiter.go:142 | a clock that runs backwards neither fills nor empties a bucket |

## Left out

- HTTP servers, middleware, logging, metrics, shutdown and configuration loading: plumbing around the modelled code.
- The WAF engine: its first match over regular expressions would add only easy members; it enters as the bypass mark on a request.
- `proxyToOrigin`, the transport and response writing: foreign calls; the origin is an arbitrary answer or failure, with the body as already read and cut at the size limit.
- The branch of `handleWithCache` for a flight without entry and without error: `fetchFromOrigin` never returns such a result.
- Forwarded headers, admin authentication and parsing of client addresses: short case splits over library parsers; exemption from rate limits is an arbitrary predicate.
- Purge requests whose JSON does not decode: answered before the cache is touched.
- `singleflight`, `container/list`, `x/time/rate`, `path.Clean`, `regexp` and URL escaping as Go code: modelled by their documented behaviour.
- Panics inside a flight and the `Forget` call of `singleflight`, which the proxy does not use.
- Admit: one limiter call happens at one instant; lock interleavings inside `getLimiter`, and a bucket charged after a concurrent clean-up has dropped it, are not modelled.
- Avail: tokens are exact; not modelled are the floating-point rounding of `x/time/rate`, its truncation of waiting times to whole nanoseconds, with which it can also admit when less than `rate` units are missing, and its special cases for a rate of zero or infinity.
- ToLower: letters outside ASCII are left alone, and so by `ToUpper` and `EqualFold`.
- IsSpace: the white space outside ASCII that `strings.TrimSpace` also removes is not modelled.
- HeaderGet: only the first line of a header is read, as the program does; directives on a second `Cache-Control` line are not seen by it or by `HasDirective`.
- GetShrinks: the byte total is unbounded; int64 overflow of `sizeBytes` is not modelled.
- GrowingKeepsHits: premise on the run; `GrowingKeepsHitsIff` says for which limits it is not needed.
- KeyCanonical: bar-free verbs and hosts, bars in at most one of path, query and encodings, and requests that a second normalisation leaves alone; `SameKeyIff` needs only the first, `TellsApartIff` and `EveryKeyShared` show what happens without the others.
- SameOriginUrlIff: what `ResolveReference` does to a leading `..`, which only paths that a second normalisation changes can keep, and the escaping of the URL are not modelled.
- OtherPathServed: requests that the policy caches whatever their path; rules can keep the other path out of the cache.
- PathPurgeTakes: hosts without bars; Go's HTTP server refuses a `Host` header that holds one.
- RateBound: the burst fits the refill of the idle time; `LargeBurstShows` shows what the clean-up does without that.
- CleanupInvisibleIff: rules that can create one bucket have one rate and can be exposed by requests for it; without that only `CleanupIsInvisible` is proved, the half from the condition to invisibility. Not characterised are rules that share a bucket at different rates, which show or not as they round to whole tokens within single nanoseconds, and rules all of whose requests run into earlier rules that are slower and hold less.
- TwoRulesInvisibleIff: the same two premises; of two rules that match the same requests with one id the second never creates the bucket, and its burst does not matter.
- SharedParametersShow: the rules can be exposed, and a slower rule with the larger burst at one instant.
- CanPassIff: rules that can create one bucket agree on it; the half without that premise is `SharedBucketNeverPasses`.
- RetryAfterOneSecond: the buckets can serve the request and refill for it in a second; `SharedBucketNeverPasses` shows what happens when they cannot serve it.
