# NovaStream: a verified model of its stateful and arithmetic parts

This project models the parts of NovaStream where a wrong step is hard to see: the sync CRDTs, the DVR pipeline, refresh-token
rotation, the playback proxy, the settings mirror of the web client, the gateway's rate limiter, diverse ranking, the playlist
parsers, channel health, watch history, the ingestion batcher and the address guard. It states what they are for and proves it
for all inputs, all runs or all reachable states. `dafny verify dfyconfig.toml` checks everything.

Redis, Postgres, object storage, HTTP and the clock are maps, sets, replies and times that come from outside. Hashes, signatures,
URL resolution and date formats are function parameters; where a result needs more than that of them (no collisions, plain text),
a named predicate such as `Proxy.Sound` or `MediaPlaylist.Sound` says what. Loops and objects of the source are loops and classes
here, each tied by its contract to a specification function about which the results are proved.

| file | what it models |
|---|---|
| `TokenBucket`, `Clocks` | the limiter's script with the expiry of its key, against a rule over the whole past; the clocks that keep its bound |
| `RefreshTokens` | the token table and the SQL statements of `Refresh`, interleaved statement by statement, with failures |
| `OrSet`, `LwwMap` | the two CRDTs as values, over a network of replicas, and in place with nested tag maps |
| `ServerSync` | the debounced mirror: timer, in-flight flag, pending flag, PUTs that arrive and settle late or never |
| `Text`, `Manifest`, `MediaPlaylist` | decimals and lines; the catch-up playlist printer; the recorder's playlist parser |
| `DvrStore` | recorders and retention sweepers over objects and rows, crashing anywhere |
| `Similarity`, `Mmr` | Newton square root, cosine and genre overlap; the greedy choice with in-place removal |
| `Proxy`, `ProxyRuns` | manifest rewriting, routing and the URL table; runs of many interleaved requests |
| `ExtInf`, `WebPlaylist` | the two M3U parsers |
| `WatchHistory`, `ChannelHealth`, `Ipv4`, `Ingest` | the 20-entry history, the health counters, address literals, the deduplicating batcher |

## What the code does not do

Where the code differs from its comments, or does less than a reader may expect, the model follows the code. These are the places,
with the members that state them.

- A replayed refresh token is said to kill its chain. It does if and only if no rotation of that chain is between its claim and
  its stitch at that moment (`ReplayKillsChainExactly`). A failed stitch, whose error is ignored, leaves the successor outside
  the chain for good, and nothing else does (`ChainIsLineage`, `FailedStitchEscapes`).
- An index row inside retention can lose its object: object keys name milliseconds, the index keeps microseconds. It cannot happen
  if and only if no two recordings share channel, millisecond, number and duration (`RetainedExactly`).
- The links of a variant manifest are relative to `/play/{ticket}/v/` and match no route; only links of the master manifest lead
  back (`LinkLeadsBackExactly`). A table key lives half an hour after its last write, not as long as the ticket.
- The last-writer-wins map converges if and only if no key has two latest writes with different values (`ConvergesExactly`).
- An immediate flush (`syncUpNow`) is safe if and only if no PUT is outstanding when it is called (`FlushMirrorsExactly`);
  otherwise a PUT that arrives late can undo a newer one (`OverlappingFlushesLoseAWrite`). A failed PUT is made good if and only
  if a write is pending behind it, and otherwise waits for the next change (`FailedPutExactly`, `FailedPutWaits`).
- The skipped write of a success shows exactly where the record that it leaves lapses, two weeks after its last write, and the one
  with every success written does not (`ShortcutInvisibleExactly`); it can unhide a channel
  (`ShortcutPutsChannelBack`). After a lapse the counters start again from nothing (`CountersRestart`).
- The limiter's bound needs a clock that never goes forward further than its readings are apart; one that steps back and
  returns breaks it (`BoundExactly`, `BackwardClockBreaksBound`).
- `dropped` counts every #EXTINF line whose URL never arrived, which its comment denies (`CountsExactly`); identities collide
  if and only if a tvg-id spells a suffixed identity (`DistinctExactly`).
- A single octal number is read as decimal, unlike in a dotted form (`ReadAlikeExactly`).
- Similarity can exceed 1 if and only if two genre lists have more equal pairs than genres together (`InRangeExactly`), which takes
  duplicates. The choice reorders the caller's slice and leaves stale entries at its end (`MaximalMarginalRelevance`). The
  accuracy of the square root depends on its argument (`SqrtAccuracyExactly`), and degrades for very large and very small ones.
- The dwell time in the history starts again from nothing after 20 distinct other channels (`KeptExactly`, `DwellExactly`).

## Model

| member | source | states |
|---|---|---|
| TokenBucket.NewLimits | services/gateway/internal/gateway/ratelimit.go:51-60 | the limits are positive whatever is configured, 30 and 60 by default |
| TokenBucket.RateLimiter.Allow | services/gateway/internal/gateway/ratelimit.go:25-48 | one run of the script is one step of the bucket of its key, seen through expiry; other keys are untouched |
| TokenBucket.TtlRefills | services/gateway/internal/gateway/ratelimit.go:46-46 | a bucket left alone has refilled completely from its time to live on, and not before |
| TokenBucket.TokensInRange | services/gateway/internal/gateway/ratelimit.go:37-45 | the stored number stays between 0 and burst |
| TokenBucket.ExpiryUnobservable | services/gateway/internal/gateway/ratelimit.go:33-46 | a request finds the same level whether or not the key has expired |
| TokenBucket.LevelIsLeastRoom | services/gateway/internal/gateway/ratelimit.go:33-39 | the one stored number is the least room over all windows that end with the request |
| TokenBucket.AdmitsExactlyWhatFits | services/gateway/internal/gateway/ratelimit.go:33-47 | the lazy bucket admits exactly what the reference rule over the whole past admits |
| TokenBucket.WindowBound | services/gateway/internal/gateway/ratelimit.go:26-47 | at most burst + rate * (to - from) / 1000 requests are admitted in any window, expiry included |
| Clocks.ClimbBound | services/gateway/internal/gateway/ratelimit.go:37-45 | on any clock consecutive requests are admitted up to burst plus the refill of the forward moves between them |
| Clocks.BoundExactly | services/gateway/internal/gateway/ratelimit.go:26-47 | the bound on windows of time holds for all limits and all requests if and only if the clock never moves forward further than its readings are apart |
| Clocks.ForwardIsStraight | services/gateway/internal/gateway/ratelimit.go:37-39 | a clock that never steps back is such a clock |
| Clocks.BackwardClockBreaksBound | services/gateway/internal/gateway/ratelimit.go:37-45 | a clock that steps back and returns is not: some limits and requests break the bound |
| RefreshTokens.InvStep | services/auth/internal/auth/service.go:194-279 | what every statement of every call keeps |
| RefreshTokens.ExchangedAtMostOnce | services/auth/internal/auth/service.go:192-203 | under any interleaving of statements no token is exchanged twice |
| RefreshTokens.OneOpenTokenPerChain | services/auth/internal/auth/service.go:192-236 | a chain has at most one unused, unrevoked token at any time, and one user |
| RefreshTokens.ReplayKillsChainExactly | services/auth/internal/auth/service.go:208-216 | after a replay no token of the chain ever succeeds, if and only if no rotation was between claim and stitch |
| RefreshTokens.WholeCallReplayKillsChain | services/auth/internal/auth/service.go:192-216 | with whole calls as steps a replay kills the chain, whatever interleaving follows |
| RefreshTokens.ChainIsLineage | services/auth/internal/auth/service.go:230-235 | in every run all released tokens are on the chain of the login they descend from, if and only if no stitch failed |
| RefreshTokens.FailedStitchEscapes | services/auth/internal/auth/service.go:231-235 | a failed stitch lets the successor outlive the replay of its parent |
| RefreshTokens.ExpiryAsHandedOut | services/auth/internal/auth/service.go:194-279 | in every run a token expires when it was to expire as it was handed out |
| RefreshTokens.LoginLastsUntilExpiry | services/auth/internal/auth/service.go:194-203 | a token handed out at login can be exchanged at every moment before its expiry, and at none from then on |
| RefreshTokens.Service.Refresh | services/auth/internal/auth/service.go:194-279 | the whole table after each outcome: the parent used and a successor until now + ttl, on the chain of the parent or, without a stitch, its own; or the chain revoked; it is also the run of the statements |
| OrSet.Convergence | services/sync/internal/sync/crdt.go:1-5 | replicas that hold the same operations agree on every element, for every order, grouping and repetition of merges |
| OrSet.PresentExactly | services/sync/internal/sync/crdt.go:50-95 | an element is present exactly when some seen Add's tag is in no seen Remove |
| OrSet.AddWins | services/sync/internal/sync/crdt.go:36-38 | an Add that no seen removal had seen keeps its element present |
| OrSet.ObservedRemove | services/sync/internal/sync/crdt.go:36-38 | when removals name all tags seen, present if and only if some Add survives every seen removal |
| OrSet.MergeLaws | services/sync/internal/sync/crdt.go:77-95 | merging is commutative, associative and idempotent |
| OrSet.ORSet.AddTag | services/sync/internal/sync/crdt.go:50-55 | the set gains the tag, in a tag map of its own |
| OrSet.ORSet.RemoveTags | services/sync/internal/sync/crdt.go:58-65 | the observed tags are recorded as removed, in a tag map of its own |
| OrSet.ORSet.Contains | services/sync/internal/sync/crdt.go:68-75 | the walk over the tags finds exactly whether one is not removed |
| OrSet.ORSet.MergeFrom | services/sync/internal/sync/crdt.go:78-95 | the value becomes the merge, the other set is unchanged, and no tag map is shared |
| LwwMap.LWWMap.Put | services/sync/internal/sync/crdt.go:26-31 | one write is one step of the specification |
| LwwMap.HoldsLatest | services/sync/internal/sync/crdt.go:9-31 | under every written key stands a write that no other beats, for every order of writes |
| LwwMap.HeldIsLast | services/sync/internal/sync/crdt.go:28-30 | the entry under a key is a write to it, and no other has a later time, or the same time and a greater origin |
| LwwMap.LessExactly | services/sync/internal/sync/crdt.go:28-28 | origins are compared as text, by the first difference |
| LwwMap.FirstLatestStays | services/sync/internal/sync/crdt.go:28-30 | the first of the latest writes stays |
| LwwMap.ConvergesExactly | services/sync/internal/sync/crdt.go:1-31 | a key is the same after every order and repetition of its writes if and only if its latest writes are one |
| LwwMap.LatestDifferInValue | services/sync/internal/sync/crdt.go:28-28 | latest writes of a key differ in nothing but their value |
| ServerSync.SyncClient.Schedule | apps/web/src/lib/serverSync.ts:172-177 | arms the timer, or marks pending while a PUT is in flight |
| ServerSync.SyncClient.Snapshot | apps/web/src/lib/serverSync.ts:75-86 | the walk over the allow-list collects exactly the synced part of the store |
| ServerSync.SyncClient.EndPush | apps/web/src/lib/serverSync.ts:161-166 | clears the flag and re-arms the timer if something is pending |
| ServerSync.NoLostWrite | apps/web/src/lib/serverSync.ts:169-177 | in every run, overlapping flushes included, a write not yet in a snapshot has the timer armed or is pending behind an outstanding PUT |
| ServerSync.OnePutAtATime | apps/web/src/lib/serverSync.ts:150-177 | without immediate flushes PUTs go one at a time and never beside an armed timer |
| ServerSync.MirrorsExactly | apps/web/src/lib/serverSync.ts:140-177 | with one PUT at a time, every further run without flush and failure mirrors at rest, if and only if the timer is armed, a write is pending, a PUT has yet to arrive, or the server has everything |
| ServerSync.QuietMeansMirrored | apps/web/src/lib/serverSync.ts:150-177 | from the start, without flushes and failures the mirror is exact whenever all is quiet |
| ServerSync.ComesToRest | apps/web/src/lib/serverSync.ts:150-177 | left alone, with one PUT at a time, the protocol has a way to rest within eight events, with every write on the server exactly under the condition of `MirrorsExactly` |
| ServerSync.EveryRunComesToRest | apps/web/src/lib/serverSync.ts:150-177 | and every order of its events leads there: no run without failures is longer, it is at rest exactly at that length, and then mirrored exactly under that condition |
| ServerSync.FlushMirrorsExactly | apps/web/src/lib/serverSync.ts:145-177 | with one PUT at a time, failed ones included, an immediate flush leaves every further run mirrored at rest if and only if no PUT is outstanding when it is called |
| ServerSync.FailedPutExactly | apps/web/src/lib/serverSync.ts:161-166 | with one PUT at a time, a failed PUT is made good in every further run if and only if a write was pending behind it or the server has everything; without a pending write nothing happens before the next change |
| ServerSync.FailedPutWaits | apps/web/src/lib/serverSync.ts:161-161 | the plainest run in which it is not: one write, whose PUT fails |
| ServerSync.OverlappingFlushesLoseAWrite | apps/web/src/lib/serverSync.ts:145-159 | the plainest such run: two flushes, and the older body stays on the server although nothing failed |
| Manifest.OneWindow | services/dvr/internal/dvr/manifest.go:64-70 | with an index unique in channel and start, the answer of the query is the rows of the window in rising order, however the index holds them |
| Manifest.Collect | services/dvr/internal/dvr/manifest.go:77-88 | the pass returns the rows of the window by start time, and their longest duration |
| Manifest.Build | services/dvr/internal/dvr/manifest.go:56-110 | a playlist exactly for a window that is not empty, inverted or over a day, and its text |
| Manifest.PlaylistFrame | services/dvr/internal/dvr/manifest.go:97-109 | the header lines, with the target, and the end |
| Manifest.PlaylistRow | services/dvr/internal/dvr/manifest.go:103-107 | for every row its duration line and its address with the viewer's token |
| Manifest.MillisOfSeconds | services/dvr/internal/dvr/manifest.go:104-104 | a duration printed with three decimals is read back as the same thousandths |
| Manifest.MillisExactly | services/recording/internal/recorder/recorder.go:201-205 | any plain decimal is read as what it denotes in thousandths, cut off |
| MediaPlaylist.FetchMediaPlaylist | services/recording/internal/recorder/recorder.go:185-220 | the scan returns the segments and the target that the lines fold to |
| MediaPlaylist.SegmentRead | services/recording/internal/recorder/recorder.go:190-217 | in any playlist a URI line becomes a segment with the duration of the #EXTINF line before it, unless a segment took that |
| MediaPlaylist.SegmentsCounted | services/recording/internal/recorder/recorder.go:190-217 | there are as many segments as URI lines, and the target is that of the last target line |
| MediaPlaylist.ReadsWhatWasWritten | services/recording/internal/recorder/recorder.go:190-219 | a written playlist is read as exactly its segments, in order, with URLs, durations and target |
| MediaPlaylist.TargetDurationTight | services/dvr/internal/dvr/manifest.go:100-100 | the target is no smaller than any rounded EXTINF and less than a second above some one (section 4.3.3.1 of RFC 8216) |
| MediaPlaylist.BuildAndFetch | services/dvr/internal/dvr/manifest.go:56-110 | from the index through the text and back gives the rows of the window, by start time |
| DvrStore.SegmentKeyExactly | services/recording/internal/recorder/recorder.go:249-257 | keys are equal exactly for the same channel, millisecond, number and duration |
| DvrStore.InvStep | services/recording/internal/recorder/retention.go:45-63 | what every step of recorders and sweepers keeps, crashes included |
| DvrStore.RetainedRowHasObject | services/recording/internal/recorder/retention.go:10-16 | in every run a row that started in a later millisecond than now less the retention period has its object |
| DvrStore.RetainedExactly | services/recording/internal/recorder/retention.go:10-63 | every row that started no earlier than now less the retention period keeps its object in every run of the recordings, if and only if no two of them share a key |
| DvrStore.BorderRowLosesObject | services/recording/internal/recorder/recorder.go:233-246 | any two recordings that share a key have a run that loses the object of the retained one |
| DvrStore.RemovedAfterDelete | services/recording/internal/recorder/retention.go:14-16 | a sweeper removes a row only when it started before now less the retention period and its object was deleted |
| DvrStore.SweepRemoves | services/recording/internal/recorder/retention.go:45-63 | an undisturbed pass over a due row removes its object and the row, and nothing else |
| DvrStore.Dvr.PersistSegment | services/recording/internal/recorder/recorder.go:233-247 | object first, then row, once per channel and start time; every kept row keeps its object |
| DvrStore.Dvr.ListForRetention | services/recording/internal/recorder/store.go:52-77 | the oldest rows before the cutoff, without repeats, up to the limit, which is 1000 if none is given |
| DvrStore.Dvr.RunOnce | services/recording/internal/recorder/retention.go:45-63 | lists the oldest rows from before now less the retention period, up to 5000; exactly those whose objects could be deleted go, with these objects |
| DvrStore.Dvr.DeleteObjects | services/recording/internal/recorder/retention.go:54-61 | the loop deletes the objects of exactly the ids it returns |
| Similarity.SqrtNotBelow | services/recommendation/internal/reco/mmr.go:88-98 | the computed root never underestimates |
| Similarity.NewtonClosed | services/recommendation/internal/reco/mmr.go:92-97 | with r the root of x, n steps miss it by (z - r) (r + 1)^(2^n) = (z + r) (r - 1)^(2^n) |
| Similarity.SqrtAccuracyExactly | services/recommendation/internal/reco/mmr.go:88-98 | for every x and every tolerance e, the result is within e of the root if and only if (2 + e) (r - 1)^256 <= e (r + 1)^256 |
| Similarity.SqrtAccurate | services/recommendation/internal/reco/mmr.go:92-93 | eight steps are accurate to a part in 10^12 between 1/256 and 256 |
| Similarity.SqrtHalvesAtMost | services/recommendation/internal/reco/mmr.go:92-97 | the result is never below x / 256 |
| Similarity.CauchySchwarz | services/recommendation/internal/reco/mmr.go:75-81 | the squared dot product is at most the product of the squared norms |
| Similarity.CosineInRange | services/recommendation/internal/reco/mmr.go:75-86 | the computed cosine lies between -1 and 1 |
| Similarity.SimilarityExactly | services/recommendation/internal/reco/mmr.go:56-73 | equal pairs of genres by the number of genres, weighed 0.4 against 0.6 for the cosine; 1 within a series |
| Similarity.CosineExactly | services/recommendation/internal/reco/mmr.go:75-86 | the cosine times both computed lengths is the dot product |
| Similarity.SimilaritySymmetric | services/recommendation/internal/reco/mmr.go:56-73 | the order of two candidates does not matter |
| Similarity.GenreShareAtMostHalf | services/recommendation/internal/reco/mmr.go:60-68 | lists without duplicates share at most half of their genres |
| Similarity.SimilarityInRange | services/recommendation/internal/reco/mmr.go:56-73 | without duplicate genres it is between -0.6 and 1, and at most 0.8 outside a series |
| Similarity.InRangeExactly | services/recommendation/internal/reco/mmr.go:56-73 | all candidates with two given genre lists are within -0.6 and 1, if and only if the equal pairs are no more than the genres of both lists together, or 1 |
| Similarity.SimilarityOf | services/recommendation/internal/reco/mmr.go:56-73 | the loops compute the specified similarity |
| Mmr.ScoreExactly | services/recommendation/internal/reco/mmr.go:35-44 | a score is the weight times the relevance less the other weight times the greatest similarity to a chosen candidate, at least 0 |
| Mmr.Best | services/recommendation/internal/reco/mmr.go:35-49 | the search returns the first of the best scores, or index 0 if none beats the floor |
| Mmr.RemoveAt | services/recommendation/internal/reco/mmr.go:51-51 | shifting removes exactly one entry and leaves the last cell stale |
| Mmr.MaximalMarginalRelevance | services/recommendation/internal/reco/mmr.go:20-54 | k entries, greedily chosen from the sorted candidates, and what every cell of the caller's slice then holds |
| Mmr.ChoiceConserves | services/recommendation/internal/reco/mmr.go:31-52 | after any picks, chosen and remaining candidates are a permutation of the input |
| Mmr.EachEntryIsBest | services/recommendation/internal/reco/mmr.go:16-52 | each entry scores at least as high as every candidate that was left when it was chosen |
| Mmr.ChoiceMaximises | services/recommendation/internal/reco/mmr.go:16-52 | with a measure of at most 1 and ordinary relevances each entry after the first maximises the score |
| Mmr.ServiceMeasure | services/recommendation/internal/reco/mmr.go:24-26 | the service's similarity is such a measure if no two genre lists have more equal pairs than genres, as without duplicates, and its weight lies between 0 and 1 |
| Mmr.ServiceChoice | services/recommendation/internal/reco/mmr.go:20-54 | the returned slice: k of the candidates, each the best of what was not chosen before it, for ordinary relevances and such genre lists |
| Proxy.TicketService.RememberURL | services/playback/internal/playback/ticket.go:105-112 | a write that takes effect adds to what is live and renews the half hour |
| Proxy.TicketService.RecallURL | services/playback/internal/playback/ticket.go:117-126 | only a live, non-empty entry is found |
| Proxy.RewriteManifest | services/playback/internal/playback/proxy.go:220-242 | the pass writes every line's replacement and fills the table |
| Proxy.PageLineForLine | services/playback/internal/playback/proxy.go:98-242 | read back line by line: comments in place; for every URL of the origin's scheme and host a link with its hash and the token; for every other a refusal |
| Proxy.ServeHTTP | services/playback/internal/playback/proxy.go:57-157 | what each route answers, from which URL, and what it does to the table |
| Proxy.RoutesExactly | services/playback/internal/playback/proxy.go:57-88 | which paths are the master, a variant or a segment |
| Proxy.MasterIsAnswered | services/playback/internal/playback/proxy.go:90-115 | the master manifest is fetched from the origin and rewritten against it |
| Proxy.FollowedLinkIsAnswered | services/playback/internal/playback/proxy.go:98-157 | following a link of the master manifest while its URL is kept is answered from that URL: a rewritten playlist, or the bytes |
| Proxy.UnknownIsMissing | services/playback/internal/playback/proxy.go:57-88 | hashes that lead nowhere and other paths are not found, and change nothing |
| Proxy.MasterLinkRoutes | services/playback/internal/playback/proxy.go:76-88 | following a link of a master manifest asks for the hash of the URL it replaced |
| Proxy.VariantLinkRoutes | services/playback/internal/playback/proxy.go:118-141 | following a link of a variant manifest matches no route |
| ProxyRuns.InvStep | services/playback/internal/playback/proxy.go:22-29 | what every step keeps |
| ProxyRuns.EntryHasOrigin | services/playback/internal/playback/proxy.go:220-242 | every table entry, in every run, is under its own hash and has the scheme and host of the origin that the request which read it had loaded, and the ticket had been given |
| ProxyRuns.EveryFetchIsTraced | services/playback/internal/playback/proxy.go:22-29 | whatever is fetched for a ticket traces back through its fetched manifests to an origin it was given, each step with the scheme and host of the origin its request had loaded |
| ProxyRuns.HashNamesOneUrl | services/playback/internal/playback/ticket.go:105-126 | in every run a hash leads to its URL exactly while no half hour passed without a write, and never elsewhere |
| ProxyRuns.LinkLeadsBackExactly | services/playback/internal/playback/proxy.go:98-141 | a link leads back if and only if it is on a master manifest and its URL is kept |
| ProxyRuns.ServedLinkLeadsBack | services/playback/internal/playback/proxy.go:98-113 | every remembered link of a master manifest leads back for half an hour of any further run |
| ProxyRuns.FollowedLinkFetches | services/playback/internal/playback/proxy.go:115-157 | and following it fetches the URL that it replaced |
| ProxyRuns.WholePage | services/playback/internal/playback/proxy.go:220-242 | an uninterrupted page of the interleaved system fills the table as the one pass does |
| ExtInf.SplitDuration | libs/go/pkg/m3u/parser.go:187-194 | splits at the first blank or comma |
| ExtInf.SplitNameFromAttrs | libs/go/pkg/m3u/parser.go:201-214 | splits at the first comma outside quotes |
| ExtInf.NameSplitAt | libs/go/pkg/m3u/parser.go:201-211 | the cut is at the first comma that an even number of quotes comes before |
| ExtInf.NameSplitNowhere | libs/go/pkg/m3u/parser.go:212-214 | without one there are no attributes, and the name follows the leading blanks and commas |
| ExtInf.ParseAttrs | libs/go/pkg/m3u/parser.go:217-257 | the loop ends on every string and collects the specified pairs |
| ExtInf.ParseExtInf | libs/go/pkg/m3u/parser.go:144-185 | the entry of a line, promoted attributes included, in the order the map is walked |
| ExtInf.ExtInfRoundTrip | libs/go/pkg/m3u/parser.go:144-257 | printed duration, attributes and name are recovered, with commas and '=' in values, in any order of the walk |
| ExtInf.DurationExactly | libs/go/pkg/m3u/parser.go:147-151 | the duration is the first word if that is an integer in range, otherwise 0 |
| ExtInf.PromotedExactly | libs/go/pkg/m3u/parser.go:155-182 | which attributes become fields: eight as text, two if they are integers |
| ExtInf.Parser.HandleLine | libs/go/pkg/m3u/parser.go:109-142 | one line is one step of the line automaton |
| ExtInf.LineByKind | libs/go/pkg/m3u/parser.go:109-142 | what each kind of line does to the waiting entry, groups included |
| ExtInf.LastEntryIsEmitted | libs/go/pkg/m3u/parser.go:97-107 | an entry that waits at the end is emitted without a URL |
| ExtInf.Parser.ParseInto | libs/go/pkg/m3u/parser.go:76-107 | the reader loop emits what the automaton emits over all lines |
| ExtInf.PlaylistRoundTrip | libs/go/pkg/m3u/parser.go:76-257 | a printed playlist is read back as exactly its channels, in order |
| WebPlaylist.ParseM3U | apps/web/src/lib/m3u.ts:184-288 | the pass returns the specified channels and counts |
| WebPlaylist.ChannelRead | apps/web/src/lib/m3u.ts:240-264 | a URL behind an #EXTINF line becomes the next channel: its URL, tvg-id, number or else position, and identity |
| WebPlaylist.ParsedExactly | apps/web/src/lib/m3u.ts:204-277 | the result holds exactly the channels that the #EXTINF lines and the URLs behind them make, and no others |
| WebPlaylist.SplitExtInf | apps/web/src/lib/m3u.ts:101-129 | the first comma outside quotes, else the first comma, else no name |
| WebPlaylist.SplitAtOutside | apps/web/src/lib/m3u.ts:101-118 | a line is split at the first comma that an even number of quotes comes before |
| WebPlaylist.SplitElsewhere | apps/web/src/lib/m3u.ts:119-129 | and without one at the first comma at all, or not |
| WebPlaylist.SplitRecovers | apps/web/src/lib/m3u.ts:86-129 | a well-formed line is split where it was joined |
| WebPlaylist.ParsedInOrder | apps/web/src/lib/m3u.ts:268-277 | channels come in order of their numbers, and in file order where numbers are equal |
| WebPlaylist.OneStableOrder | apps/web/src/lib/m3u.ts:273-277 | order and stability leave one list only |
| WebPlaylist.DistinctExactly | apps/web/src/lib/m3u.ts:246-248 | identities are distinct if and only if no needed suffixed identity is spelled by an earlier tvg-id |
| WebPlaylist.ParsedDistinctWithoutHash | apps/web/src/lib/m3u.ts:194-201 | without '#' in a tvg-id all identities are distinct |
| WebPlaylist.HashedIdsCollide | apps/web/src/lib/m3u.ts:246-248 | with '#' two channels can get the same identity |
| WebPlaylist.CountsExactly | apps/web/src/lib/m3u.ts:279-286 | URLs are emitted plus orphans, and dropped are exactly the #EXTINF lines whose URL never arrived |
| WatchHistory.CutIsInvisible | apps/web/src/lib/watchHistory.ts:38-48 | the cut history shows the channels, order and times of the first 20 of the uncut one |
| WatchHistory.EntryIsLastWatch | apps/web/src/lib/watchHistory.ts:49-62 | an entry shows the time and the channel of the last watch of it |
| WatchHistory.KeptExactly | apps/web/src/lib/watchHistory.ts:38-62 | a channel is kept if and only if it was watched and fewer than 20 distinct others were watched since |
| WatchHistory.DwellExactly | apps/web/src/lib/watchHistory.ts:49-62 | a shown dwell time is the whole time less what was spent before the channel last came back after 20 distinct others |
| WatchHistory.TwentyOthersForgetDwell | apps/web/src/lib/watchHistory.ts:38-62 | a channel watched again starts from nothing if and only if 20 distinct others came between, or nothing was left of it before |
| WatchHistory.History.RecordWatch | apps/web/src/lib/watchHistory.ts:49-62 | the stored map goes on representing the cut history |
| WatchHistory.History.Write | apps/web/src/lib/watchHistory.ts:38-48 | sorting, cutting and rebuilding keeps the first 20 entries |
| WatchHistory.History.GetHistory | apps/web/src/lib/watchHistory.ts:64-66 | shows the first 20 entries of the uncut history |
| ChannelHealth.HealthStore.ReportOk | apps/web/src/lib/channelHealth.ts:175-193 | the new store, and when nothing is written |
| ChannelHealth.HealthStore.ReportFail | apps/web/src/lib/channelHealth.ts:206-226 | the new store, and whether the threshold was crossed |
| ChannelHealth.HealthStore.HiddenIds | apps/web/src/lib/channelHealth.ts:244-257 | exactly the hidden channels, or none past 7 in 10 |
| ChannelHealth.StoreFollowsHistory | apps/web/src/lib/channelHealth.ts:175-270 | every operation on the store is one step of its channel's history |
| ChannelHealth.StoreKeepsHistories | apps/web/src/lib/channelHealth.ts:175-270 | after any run of operations on many channels each record reads as after the reports of its channel alone |
| ChannelHealth.UnplayableHasEvidence | apps/web/src/lib/channelHealth.ts:175-226 | an unplayable channel always has a non-zero counter |
| ChannelHealth.PlaybackSuccessShows | apps/web/src/lib/channelHealth.ts:12-19 | a playback success puts a channel back, whatever happened before |
| ChannelHealth.CountersRestart | apps/web/src/lib/channelHealth.ts:113-127 | in every history and at every moment, with or without the shortcut, the counters are the evidence of the reports since the record last lapsed, and nothing while it is lapsed |
| ChannelHealth.CountersExactly | apps/web/src/lib/channelHealth.ts:113-127 | with or without the shortcut, they are all the evidence at every reading since the last wipe, if and only if none comes two weeks after the last write of evidence |
| ChannelHealth.CountersAreEvidence | apps/web/src/lib/channelHealth.ts:113-127 | the counters are the weighted failures since the last success that counts, in every history in which no two weeks pass after a failure without another or a wipe |
| ChannelHealth.ProbeSuccessKeepsPlayback | apps/web/src/lib/channelHealth.ts:168-193 | a probe success leaves the playback failures of the record as they read, after every history |
| ChannelHealth.ShortcutInvisibleExactly | apps/web/src/lib/channelHealth.ts:183-185 | in every history the shortcut is invisible at every reading since the last wipe, if and only if at each the record it leaves and the record with every success written have both lapsed or both not, or hold nothing |
| ChannelHealth.ShortcutInvisibleWhileAlive | apps/web/src/lib/channelHealth.ts:183-185 | where the record with every success written has never lapsed since the last wipe: if and only if the record that the shortcut leaves has not either |
| ChannelHealth.SkippedWriteShowsExactly | apps/web/src/lib/channelHealth.ts:183-185 | exactly when one skipped write can be seen later |
| ChannelHealth.ShortcutPutsChannelBack | apps/web/src/lib/channelHealth.ts:183-185 | the shortcut can unhide a channel that writing would keep hidden |
| Ipv4.CanonicaliseIPv4 | apps/web/src/lib/ssrfGuard.ts:42-97 | returns the dotted form of the specified octets, or none |
| Ipv4.PartExactly | apps/web/src/lib/ssrfGuard.ts:59-76 | a part is decimal digits, or hexadecimal ones behind 0x |
| Ipv4.PartIsRead | apps/web/src/lib/ssrfGuard.ts:59-76 | octal and hexadecimal parts are read in their bases |
| Ipv4.HexIsRead | apps/web/src/lib/ssrfGuard.ts:51-55 | a hexadecimal number, in small letters or capitals, is its address, if it fits |
| Ipv4.PackedExactly | apps/web/src/lib/ssrfGuard.ts:79-96 | parts are accepted exactly if they fit, and denote the address of the octets |
| Ipv4.ShownIsRead | apps/web/src/lib/ssrfGuard.ts:59-96 | a canonical form is read as itself |
| Ipv4.CanonicalTwice | apps/web/src/lib/ssrfGuard.ts:42-97 | the result is four octets below 2^32, and canonicalising again changes nothing |
| Ipv4.ReadAlikeExactly | apps/web/src/lib/ssrfGuard.ts:38-58 | one number is read as in the dotted form, except exactly single octal numbers |
| Ingest.Batcher.Flush | services/playlist-ingestion/internal/ingest/batcher.go:61-70 | the buffer goes to the store, and is emptied only when the store took it |
| Ingest.FirstsExactly | services/playlist-ingestion/internal/ingest/service.go:134-140 | of every hash exactly one entry is kept |
| Ingest.FirstsAreFirst | services/playlist-ingestion/internal/ingest/service.go:134-140 | it is the first one, in the order of the stream |
| Ingest.RunRefresh | services/playlist-ingestion/internal/ingest/service.go:121-148 | batches hold the kept entries in order, all but the last full; the count is the number of hashes; after an error a beginning; no error without a cause |

## Left out

- Floating point: buckets, cosines and scores are over the reals; durations are exact thousandths, so the truncation at
  services/recording/internal/recorder/recorder.go:202 is outside the model, and so are number forms other than plain decimals.
- MediaPlaylist.FetchMediaPlaylist: EXTINF durations with an exponent, in hexadecimal or named (`Inf`, `NaN`) are read as 0, because
  only plain decimals are modelled.
- The line limit of the scanners (1 MiB) and read errors in the middle of a body.
- `path.Join` cleaning of object keys: channel ids are taken to have no slash, and not to be empty, `.` or `..`.
- Token signatures of playback tickets, ticket expiry times and the safe HTTP client: a request is modelled after its token was accepted.
- ProxyRuns: hashes are ideal; their truncation to 96 bits is not modelled.
- ServerSync: `syncDown`, and writers that do not call `scheduleUp`.
- RefreshTokens: device ids, access tokens and the subscription query of `issueTokens`; a failing query is a failed issue.
- DvrStore: leases, the ring of seen segments, download errors and what an object contains.
- TokenBucket: store errors, which let requests pass.
- WatchHistory: two watches in one millisecond, whose order the sort leaves to the order of keys; failing storage.
- ChannelHealth: the schema version, listeners, and the sweep that schedules probes.
- WebPlaylist: attributes other than tvg-id and tvg-chno, catch-up defaults and option lines; numbers are finite reals.
- ExtInf: what #EXTVLCOPT and #KODIPROP lines do to an entry is a parameter.
- Mmr: the order that `sort.Slice` gives to equal relevances; any sorted order is allowed.
- Ingest: the batch slice is a value, so that a store that kept a reference to it is outside the model; categories and identifiers of rows.
- LwwMap: instants are integers.
- IPv6 literals, name blocking and the private ranges of the address guard.
