# Verified model of the code-retrieval engine and its gateway

This project models the stateful and arithmetic cores of the retrieval engine
(`cce-engine`, `cce-core`), of the multi-repository gateway (`apps/gateway`) and
of the research metrics, and proves what their documentation promises of them.
Where the code does something else than its documentation says, the model
follows the code, a lemma exhibits the difference, and another one says, as an
if-and-only-if, when the promise holds.

`dafny verify dfyconfig.toml` checks everything.

## The modules

| modules | what they model |
|---|---|
| `ContextHits`, `Admission`, `Delivery`, `ContextPacker`, `PackRoles` | the context packer: evidence roles, token estimate, two greedy passes under a budget with three quotas, the delivery report, and what each item shows of its hit |
| `Breaker`, `BreakerProbes`, `SearchCache` | the circuit breaker and the response cache of the gateway |
| `Gateway`, `GatewayReports`, `GatewayVerdicts`, `GatewayCaching`, `GatewayRuns`, `GatewayCalls` | the gateway's admission protocol as a transition system: every request has a phase, a step is one request's next move or a part of a push, and any step may interleave with any other; reports counted over whole runs, the verdict each answer reports, what is cached and served, runs that break a documented promise, and what the permits bound |
| `Fanout` | the round-robin merge of search results |
| `Utf8`, `DenseCodec`, `DenseLayout`, `DenseReader`, `DenseBuild` | the binary format of the dense index, byte by byte, its cursor reader, and the incremental build |
| `Chunker` | bounded windows over source text |
| `Lifecycle`, `LifecycleResults` | snapshots, the current pointer and the index lease, shared by several processes, and what a run leaves behind when it returns |
| `QueryFilters`, `FilterKeys` | the quote-aware query tokenizer and filter extractor, and a declarative reading of what a query says |
| `PatchScan`, `EditScript`, `PatchText` | the unified-diff scanner, against the edit script a patch was rendered from |
| `Impact`, `ImpactEdges`, `ImpactLevels` | the bounded impact search, the edges it follows and shows, and its levels told from the seeds alone |
| `RankMetrics`, `RankExcess`, `Holm` | nDCG and Holm's step-down procedure, over the reals |
| `Common`, `Wrappers`, `Decimals`, `Sets` | shared bounds and sequence functions, options and results, decimal numerals, cardinalities |

Objects that the source updates in place (`Quotas`, `CircuitCell`, `Breakers`,
`Cache`, `SliceReader`) are classes, and its loops are methods; each method is
proved against a specification function or predicate, and the theorems are
about those. Hashing is an injective function, the embedder a pointwise
function, a regular expression a predicate, a semaphore a counter, and
`to_lowercase` any function on strings.

## What the proofs found

- *Circuit breaker.* "At most one probe while open" is false: a call from before
  the opening frees the probe permit when it fails (`Breaker.TwoProbesAtOnce`).
  At every opening n unreported probes can be out without a success exactly when
  n is at most one more than the calls still out (`BreakerProbes.ProbesAtAnOpening`),
  so the promise holds exactly when none is (`BreakerProbes.OneProbeExactlyWithoutStragglers`).
  A granted call that never reports can strand the circuit: it never grants again
  exactly when it is open, its probe permit is taken and no call is out
  (`BreakerProbes.StrandedExactly`), and every configuration can get there
  (`BreakerProbes.StrandingIsReached`). Without a dropped handler every granted call
  reports exactly once (`GatewayReports.ReportedExactlyOnce`).
- *Permits.* The comment on `UpstreamPermits` says that the global permit is
  dropped first; fields drop in declaration order, so the worker permit goes
  first, and one repository can hold 17 global slots: such a run exists from the
  start (`GatewayRuns.SeventeenIsReached`). Its slots are exactly the requests
  holding both permits, at most 16, and those between their two drops
  (`Gateway.GlobalSlotsOfOneRepository`). The comment that a permit covers the body
  read is true of buffered answers, of which a repository can have up to 16 under way
  and no more (`GatewayCalls.BufferedCallsExactly`); an event stream is read after its
  permits are gone, and any number of them at once (`GatewayCalls.StreamsAreUnbounded`).
  A fan-out request also reports to the breaker after its permits are gone, a proxy
  request before.
- *Cache.* Invalidation on push is not exact, for three reasons. A call answered
  before a push can store its answer after it (`GatewayRuns.StaleAcrossAPush`). A
  push indexes in the background but invalidates at once, so a call made after the
  invalidation can store what a worker answered that has not indexed yet
  (`GatewayRuns.StaleFromALaggingWorker`). And a push that fails or is dropped after
  it materialized never invalidates, while a worker that watches its files indexes
  the content all the same (`GatewayRuns.StaleAfterAbandonedPushes`).
  `Gateway.StaleEntriesExplained` says exactly which entries are old, and that there
  is no fourth reason.
- *Snapshot lifecycle.* Beginning a snapshot replaces its row, and the foreign key
  then clears a current pointer to it: two full runs of the same content can
  leave a repository without a current snapshot after one of them committed it
  (`Lifecycle.CommittedPointerCanBeLost`). A pointer is cleared exactly by such a
  rewrite of the snapshot it names (`Lifecycle.CurrentIsClearedExactly`).
- *Chunks.* The tail of a range is dropped exactly when some character is wider
  than the bound (`Chunker.CoversExactlyWhenCharactersFit`).
- *Dense index.* An empty index has dimension 0 and cannot be encoded, although a
  zero-dimensional artifact is accepted by the decoder (`DenseCodec.ZeroDimensionIsEmpty`).
- *Patches.* A body line that reads as `+++ ` or `--- ` shifts all later numbers by
  one (`EditScript.SeenIsImageLessMasked`), and a body reports its matching lines at
  their numbers exactly when it has none (`EditScript.ImageMatchesExactly`). A hunk
  header is read back exactly when no word of its section heading changes a number
  (`PatchText.HeaderReadExactlyWhenHarmless`), and a return arrow there makes the
  scanner ignore it (`PatchText.ArrowDropsHeader`); a path is read back exactly when it
  has no white space (`PatchText.PathReadExactlyWhenPlain`).
- *Impact.* With two seeds a second hop can be missed (`Impact.SecondHopMissed`): an
  entity within two hops is missed exactly when everything it could be reached
  through was first met behind a later seed (`ImpactLevels.MissedExactly`).
- *nDCG* can exceed 1 when ranges and files are both annotated: exactly when more
  gold ranges can be hit one by one than there are ranges less files
  (`RankExcess.NdcgExceedsOneExactly`). When no two ranges of a file start on the
  same line, it stays within 1 exactly when one kind is missing
  (`RankExcess.WithinOneExactlyForOneKind`).
- *Context packer.* A claim term with a line break can be reported delivered though
  no snippet carries it (`Delivery.BrokenTermSpansSnippets`); searching the joined
  snippets is exact for exactly the terms without one (`Delivery.JoinIsExactWithoutBreak`),
  and those are reported exactly when a single hit of a shipped document carries them
  (`ContextPacker.DeliveredTermsAreShipped`). The engine's own claim terms are
  alphanumeric tokens (crates/cce-engine/src/retrieval.rs:3563-3583), so the case needs
  another caller of `ContextPacker::pack`. A rejected hit that a role proposed can
  change the selection (`Admission.ProposedRejectionLeavesATrace`), one that no role
  proposed cannot (`Admission.RejectedLeaveNoTrace`).

## Model

| member | source | states |
|---|---|---|
| ContextHits.ExtensionExactly | crates/cce-engine/src/context.rs:280-294 | the extension that makes a path a configuration file is the dot-free end of a name with a non-empty stem, and nothing else |
| ContextHits.EstimateOfConcat | crates/cce-engine/src/context.rs:498-505 | the token estimate of two joined texts is at most the sum of their estimates, and at least that sum less one |
| ContextHits.EstimateExactly | crates/cce-engine/src/context.rs:498-505 | the estimate is one more than a quarter, rounded down, of the characters with the fourteen punctuation characters counted twice |
| Decimals.FiguresExactly | crates/cce-engine/src/context.rs:485-491 | the numbers of a source range are shown in decimal: the last figure is the remainder by ten, after the figures of the quotient |
| PackRoles.ConfigPathExactly | crates/cce-engine/src/context.rs:282-294 | a path is a configuration file exactly when its last component is `package.json`, or has a stem and one of the extensions toml, yaml, yml and lock in any case |
| PackRoles.ItemsShowHits | crates/cce-engine/src/context.rs:360-390 | every item after the orientation stands for a retrieved hit: its kind follows from the hit's representation, route and path, and id, title, body and provenance are the hit's |
| PackRoles.RouteNameExactly | crates/cce-core/src/retrieval.rs:53-90 | each of the thirteen routes is shown by its own name |
| PackRoles.RouteNamesGrow | crates/cce-engine/src/context.rs:493-496 | the contributing routes are shown in order, in brackets, parted by a comma and a blank |
| PackRoles.OrientationExactly | crates/cce-engine/src/context.rs:61-85 | the orientation is the first item exactly when it fits the budget |
| PackRoles.BestOfTurnShips | crates/cce-engine/src/context.rs:105-136 | the best-ranked test, contract, caller, configuration, history or knowledge hit ships whenever it is admissible at its turn, the turns in this order |
| PackRoles.BestOfEachTurnComeFirst | crates/cce-engine/src/context.rs:105-136 | best hits of the first turns that fit together and lie in different documents, entities and files are the first items after the orientation, in the order of the turns |
| PackRoles.BestTestShipsFirst | crates/cce-engine/src/context.rs:105-136 | the best-ranked test-behavior hit is the first item after the orientation, shown as a test, whenever it fits |
| ContextPacker.Quotas.RenderItem | crates/cce-engine/src/context.rs:303-390 | the item ships exactly when no rule rejects it after what has shipped; the first rule in the order range, file cap, entity, budget gives the reason; a rejection changes no quota, an admission enters the hit in all three |
| ContextPacker.Quotas.constructor | crates/cce-engine/src/context.rs:97-99 | the fresh quotas stand for an empty shipment |
| ContextPacker.FindOpen | crates/cce-engine/src/context.rs:113-115 | the first candidate of the role whose document is not taken |
| ContextPacker.TryHit | crates/cce-engine/src/context.rs:116-134 | one attempt moves items, tokens, taken ids, reasons and quotas together to the specified next state |
| ContextPacker.FillQuotas | crates/cce-engine/src/context.rs:105-136 | the first loop ends in the state that the six role turns specify |
| ContextPacker.FillByRank | crates/cce-engine/src/context.rs:137-160 | the second loop ends in the state that the rank-order pass specifies |
| ContextPacker.PackHits | crates/cce-engine/src/context.rs:61-215 | the whole pack, items, tokens and report, is the one the two passes specify |
| ContextPacker.UsedIsTheItemsAndFits | crates/cce-engine/src/context.rs:63-160 | for every hit list and budget the tokens used are the sum of the items' estimates, orientation included, and at most the budget |
| Admission.PackIsAdmissible | crates/cce-engine/src/context.rs:303-350 | no document or source range ships twice, at most four ranges ship per path, no addressless hit repeats a shipped entity, everything shipped was retrieved |
| Admission.VerdictExactly | crates/cce-engine/src/context.rs:318-345 | each rejection by its own condition: a range shipped before, four ranges of the file shipped, no range and the entity shipped, or more tokens than are left |
| Admission.RejectionIsPermanent | crates/cce-engine/src/context.rs:314-341 | a hit rejected after some shipment is rejected after every longer one |
| Admission.PackIsMaximal | crates/cce-engine/src/context.rs:105-160 | every hit whose document was not taken is still rejected against the final state |
| Admission.FirstOfRoleKeepsItsSlot | crates/cce-engine/src/context.rs:86-115 | the best-ranked hit of a quota role ships whenever it is admissible at its role's turn, whatever outranks it |
| Admission.FillInRankOrder | crates/cce-engine/src/context.rs:137-160 | what the second pass ships is a subsequence of the hits in rank order |
| Admission.ReasonIsTheLastRejection | crates/cce-engine/src/context.rs:100-104 | an omitted document's final reason is the rule that rejected its last hit when the second pass reached it |
| Admission.RejectedLeaveNoTrace | crates/cce-engine/src/context.rs:314-341 | deleting an omitted hit that no role proposed leaves the shipment, its order and the tokens unchanged |
| Admission.ProposedRejectionLeavesATrace | crates/cce-engine/src/context.rs:113-134 | the restriction is needed: deleting an oversized test lets another test ship instead of a source hit |
| ContextPacker.EveryDocumentIsReportedOnce | crates/cce-engine/src/context.rs:404-425 | every retrieved document id is reported included or omitted, and none is both |
| ContextPacker.ReportPartitionsTheHits | crates/cce-engine/src/context.rs:404-425 | with distinct ids, included and omitted ids together are exactly the hits' ids, with multiplicity |
| ContextPacker.OmissionsCarryTheirRejection | crates/cce-engine/src/context.rs:409-424 | every omission carries the rule that rejected the document's last hit in the second pass; the fallback reason is never used |
| ContextPacker.DeliveredTermsAreShipped | crates/cce-engine/src/context.rs:426-435 | a claim term without a line break is reported delivered exactly when it is empty or one single hit of a shipped document carries it, with distinct ids exactly when one shipped snippet does; it is missing exactly otherwise |
| ContextPacker.NoSourceEvidenceExactly | crates/cce-engine/src/context.rs:436-446 | "no source evidence" is reported exactly when no hit of a shipped document has a source address, with distinct ids exactly when no shipped hit has one |
| Delivery.TermsPartition | crates/cce-engine/src/context.rs:432-435 | every place of the claim's term list appears in exactly one of delivered and missing, each of which keeps the claim's order |
| Delivery.ContainsInJoined | crates/cce-engine/src/context.rs:426-435 | a non-empty term without a line break occurs in the joined snippets exactly when it occurs in one of them |
| Delivery.JoinIsExactWithoutBreak | crates/cce-engine/src/context.rs:426-435 | the joined snippets hold a term exactly when one of them does, for every list of snippets, exactly for the terms without a line break |
| Delivery.BrokenTermSpansSnippets | crates/cce-engine/src/context.rs:426-435 | a term with a line break can be delivered by two snippets that only carry its halves |
| Breaker.CircuitCell.Admit | apps/gateway/src/breaker.rs:36-46 | the grant and the new circuit are those of the specification: closed, or open past the deadline with no probe out |
| Breaker.CircuitCell.Succeed | apps/gateway/src/breaker.rs:50-54 | a success closes the circuit and forgets its failures |
| Breaker.CircuitCell.Fail | apps/gateway/src/breaker.rs:59-65 | a failure is counted without overflow, ends a probe, and at the threshold, or on an open circuit, sets the deadline to now plus the cooldown |
| Breaker.Breakers.Admit | apps/gateway/src/breaker.rs:97-103 | admits by the circuit of the key and changes no other key's circuit |
| Breaker.Breakers.OnSuccess | apps/gateway/src/breaker.rs:105-115 | closes the circuit of the key and no other |
| Breaker.Breakers.OnFailure | apps/gateway/src/breaker.rs:117-125 | counts a failure for the key and no other; the deadline it sets is now plus the cooldown |
| Breaker.Breakers.Name | apps/gateway/src/breaker.rs:127-140 | the reported state is open before the deadline, half-open past it, closed otherwise; the next call is granted exactly when it is closed, or half-open with no probe out |
| Breaker.FailureSetsDeadline | apps/gateway/src/breaker.rs:56-65 | over every run a reported failure opens the circuit at the threshold, or re-opens it, with a deadline of the cooldown from now, and frees the probe permit |
| Breaker.FailureRefusesForTheCooldown | apps/gateway/src/breaker.rs:36-65 | for a whole cooldown after such a failure nothing is granted without a success |
| Breaker.RunKeepsInv | apps/gateway/src/breaker.rs:36-65 | over every interleaving of ticks, grants, reports and losses: open exactly when failures reach the threshold; probing means open and, while nothing was lost, that the latest granted call is unreported with no report since |
| Breaker.OpenCircuitBound | apps/gateway/src/breaker.rs:36-65 | in every open state of every run unreported probes number at most the failed stragglers plus one, and unreported calls at most those out at the opening plus one |
| BreakerProbes.ProbesAtAnOpening | apps/gateway/src/breaker.rs:36-65 | at every opening a run reaches, some run without a success has n unreported probes exactly when n is at most the number of calls still out plus one |
| BreakerProbes.OneProbeExactlyWithoutStragglers | apps/gateway/src/breaker.rs:36-65 | after an opening there is never more than one unreported probe, in any run without a success, exactly when no earlier call is still out |
| Breaker.TwoProbesAtOnce | apps/gateway/src/breaker.rs:59-65 | a concrete run with two probes out at once |
| Breaker.ReportedCallsFreeTheCircuit | apps/gateway/src/breaker.rs:36-46 | when every granted call has reported and the deadline has passed, the next admit is granted |
| Breaker.LostProbeStrands | apps/gateway/src/breaker.rs:36-46 | with the permit taken and nothing out, no later event changes the circuit, and no admit is ever granted |
| BreakerProbes.StrandedExactly | apps/gateway/src/breaker.rs:36-65 | in every state that keeps the invariant, no sequence of events leads to a grant exactly when the circuit is open, its permit is taken and no call is out |
| BreakerProbes.StrandingIsReached | apps/gateway/src/breaker.rs:36-65 | for every threshold and cooldown a run from the fresh circuit strands it for good |
| Breaker.OpenRefusesUntilDeadline | apps/gateway/src/breaker.rs:36-65 | without a success an open circuit grants nothing before its deadline, and failures only move the deadline later |
| Breaker.FailuresAreConsecutive | apps/gateway/src/breaker.rs:50-65 | the failure counter is the number of failures at the end of the report history, up to the counter's width |
| Breaker.OpenExactlyAfterThreshold | apps/gateway/src/breaker.rs:59-65 | the circuit is open exactly when the last threshold reports, at least one, were all failures |
| SearchCache.Cache.BeginFlight | apps/gateway/src/cache.rs:66-79 | the first caller of a key leads, a later one follows that leader's flight, and other keys are untouched |
| SearchCache.Cache.FinishFlight | apps/gateway/src/cache.rs:81-85 | ends the flight of the key and no other |
| SearchCache.Cache.Get | apps/gateway/src/cache.rs:90-99 | a hit is the entry of the key if it is no older than the time to live; nothing changes |
| SearchCache.Cache.Put | apps/gateway/src/cache.rs:101-126 | the new entries are those of the specification: stale ones swept when full, everything dropped if still full, then the response stored |
| SearchCache.Cache.InvalidateRepo | apps/gateway/src/cache.rs:128-131 | removes the entries of the repository and no others |
| SearchCache.PutKeepsExactly | apps/gateway/src/cache.rs:101-126 | a put keeps all entries below the maximum, at the maximum those within their time to live if they are fewer, else none, and stores the new one in every case |
| SearchCache.LookupExactly | apps/gateway/src/cache.rs:90-99 | a lookup answers exactly with an entry of its key whose age is at most the time to live |
| SearchCache.EntriesAreLatest | apps/gateway/src/cache.rs:90-131 | over every history each entry is the last put of its key with no later invalidation of its repository |
| SearchCache.HitIsTheLatestPut | apps/gateway/src/cache.rs:90-131 | a hit returns that latest put, and its age is within the time to live |
| SearchCache.SizeIsBounded | apps/gateway/src/cache.rs:101-126 | the cache never holds more than the maximum, or one entry when the maximum is 0 |
| SearchCache.BelowCapacityIsExact | apps/gateway/src/cache.rs:90-131 | while fewer keys than the maximum were ever put, lookups answer exactly as the history does |
| Gateway.ReachableInv | apps/gateway/src/main.rs:982-1183 | every reachable state keeps the protocol's invariants over all interleavings |
| Gateway.OneLeaderPerFlight | apps/gateway/src/main.rs:1012-1054 | a key is in flight exactly when a live request leads it, and that leader is unique |
| Gateway.PermitsAreConserved | apps/gateway/src/main.rs:400-437 | free and held worker permits of each repository add up to 16, free and held global permits to 64 |
| Gateway.GlobalSlotsOfOneRepository | apps/gateway/src/main.rs:387-392 | in every reachable state the global slots of one repository are exactly its requests holding both permits, at most 16, and those between their two permit drops, all of which are leaving |
| Gateway.SeventeenGlobalSlots | apps/gateway/src/main.rs:387-392 | wherever a repository holds 16 with one of them leaving and a caller queued, three steps give it 17 global slots |
| GatewayRuns.SeventeenIsReached | apps/gateway/src/main.rs:387-392 | a run from the start after which one repository holds 17 global slots, one of them without a worker permit |
| Gateway.UpstreamCallsAreBounded | apps/gateway/src/main.rs:394-437 | requests of a repository that are calling upstream or reading a buffered answer hold its worker permits, so they number at most 16 |
| GatewayCalls.BufferedCallsExactly | apps/gateway/src/main.rs:1070-1167 | some run brings n requests of a repository to be calling or reading a buffered answer at once exactly when n is at most 16 |
| GatewayCalls.StreamsAreUnbounded | apps/gateway/src/main.rs:1133-1144 | for every n some run has n event streams of a repository under way with all 16 and all 64 permits free |
| Gateway.LedgerIsTheRequests | apps/gateway/src/main.rs:1075-1183 | the calls a circuit counts as unreported are exactly the live requests that owe it a report, so the breaker's theorems hold of it; with no report lost, a circuit that none owes grants past its deadline |
| GatewayReports.GrantsAreAccounted | apps/gateway/src/main.rs:1075-1183 | over every run a request's grants are its reports, its drops and the report it still owes |
| GatewayReports.GrantedAtMostOnce | apps/gateway/src/main.rs:1075-1183 | over every run a request is granted at most once, and not before it has asked |
| GatewayReports.NothingLostWithoutAbort | apps/gateway/src/main.rs:1082-1183 | after a run in which no handler is dropped no circuit has lost a report |
| GatewayReports.ReportedExactlyOnce | apps/gateway/src/main.rs:1082-1183 | in such a run a granted request has reported exactly once by the time it is gone, and before that exactly when it owes nothing; one that was not granted never reports |
| GatewayVerdicts.AnswerReportsByStatus | apps/gateway/src/main.rs:1174-1182 | in every state that keeps the invariants a whole answer with a status of 500 to 599 is one more failure for its worker's circuit, and any other status closes it anew |
| GatewayVerdicts.BrokenCallReportsFailure | apps/gateway/src/main.rs:1097-1149 | a call that cannot be made or whose answer breaks off is one more failure |
| GatewayVerdicts.StreamReportsSuccess | apps/gateway/src/main.rs:1133-1144 | an event stream closes the circuit anew as soon as it starts |
| GatewayVerdicts.FanoutReportsItsOutcome | apps/gateway/src/fanout.rs:177-241 | a fan-out call reports the outcome it concluded with, after both its permits are gone |
| GatewayVerdicts.AbortStrandsExactly | apps/gateway/src/breaker.rs:36-65 | a cancelled call leaves the circuit as it was, and strands it for good exactly when a probe is out and no other report is owed |
| GatewayVerdicts.CircuitIsOpenExactly | apps/gateway/src/breaker.rs:36-65 | over every run of the gateway a worker's circuit is open exactly when its last threshold outcomes, at least one, were failures, told by statuses and broken calls |
| GatewayCaching.AdmitDecides | apps/gateway/src/main.rs:1079-1096 | a request with both permits calls exactly when the circuit is closed or past its deadline with no probe out, and else leaves with the circuit as it was |
| GatewayCaching.UncachedSkipsTheCache | apps/gateway/src/main.rs:1003-1031 | a request that is not cacheable goes straight to the permits: it reads no entry, and neither leads nor follows |
| GatewayCaching.LookUpServesExactlyFresh | apps/gateway/src/main.rs:1012-1023 | a cacheable request is served from the cache exactly when its key has an answer no older than the time to live, and else goes on to the singleflight |
| GatewayCaching.FreshHitCostsNothing | apps/gateway/src/main.rs:1012-1023 | a cache hit uses no permit, no circuit and no flight |
| GatewayCaching.MissLeadsOrFollows | apps/gateway/src/main.rs:1024-1031 | a miss follows the flight of its key if there is one, and else leads it |
| GatewayCaching.FollowerWakesExactly | apps/gateway/src/cache.rs:66-85 | a follower wakes exactly when the leader it follows no longer leads the flight |
| GatewayCaching.FollowerServedExactlyFresh | apps/gateway/src/main.rs:1031-1052 | a woken follower is served exactly by a fresh answer, and else calls by itself without leading |
| GatewayCaching.OnlyOkGoesOn | apps/gateway/src/main.rs:1185-1191 | an answered request goes on to store exactly when the status is 200 and the request cacheable, and else leaves |
| GatewayCaching.OnlyOkIsStored | apps/gateway/src/main.rs:1185-1191 | over every run each cached answer was stored by a request that had been answered with 200 |
| GatewayCaching.OnlyStreamsAreStreamed | apps/gateway/src/main.rs:1133-1144 | over every run only an answer that was an event stream is passed on without permits |
| GatewayReports.NotStrandedWithoutAbort | apps/gateway/src/breaker.rs:36-46 | after such a run a circuit that no live request owes a report grants the next admit once its deadline has passed |
| GatewayReports.StrandedCircuitExactly | apps/gateway/src/breaker.rs:36-65 | in every reachable state a circuit can never grant again exactly when it is open, its permit is taken and no live request owes it a report |
| Gateway.NobodyIsStranded | apps/gateway/src/main.rs:370-384 | each request can move by itself or follows a live leader that can, and each move brings it nearer its end |
| Gateway.StaleEntriesExplained | apps/gateway/src/main.rs:896-949 | a cached answer is older than the content exactly when the worker lagged when it answered, a push was invalidated between answer and put, or content materialized after the answer has never been invalidated, by a push that is running or ended early |
| Gateway.StoreAfterInvalidationIsStale | apps/gateway/src/main.rs:1163-1190 | wherever a call has been answered before a whole push and stores after it, a stale hit is left with every materialization invalidated and the worker up to date |
| GatewayRuns.StaleAcrossAPush | apps/gateway/src/main.rs:1163-1190 | a run from the start that ends in a stale hit with no push pending and the worker up to date |
| GatewayRuns.StaleFromALaggingWorker | apps/gateway/src/main.rs:931-949 | a run from the start that ends in a stale hit although the call was made after the push was invalidated, because the worker had not indexed it |
| GatewayRuns.StaleAfterAbandonedPushes | apps/gateway/src/main.rs:896-949 | a run from the start that ends in a stale hit of an answer that was current when stored: two pushes materialized, at least one of them ended without invalidating, and the worker serves the new content |
| Fanout.OrderIsSortedAndComplete | apps/gateway/src/fanout.rs:95-122 | the reference order lists every hit of every lane, sorted by position and then lane |
| Fanout.OrderHasTotal | apps/gateway/src/fanout.rs:98-122 | the reference order lists each hit once |
| Fanout.CutsAreFair | apps/gateway/src/fanout.rs:95-122 | any cut of the order takes a prefix of each lane, and no lane runs more than one hit ahead of an unexhausted one |
| Fanout.MergeHits | apps/gateway/src/fanout.rs:98-122 | the loop returns the first min(limit, total) hits of that order, tagged with their repository, for every limit of at least 1; a limit of 0 still takes one hit |
| Fanout.MergedHitsNameTheirLane | apps/gateway/src/fanout.rs:103-116 | each merged object is its hit with the lane's slug under `repo` and all else unchanged; anything but an object is as it was |
| DenseCodec.DecodeOfEncode | crates/cce-engine/src/dense.rs:440-532 | decoding the encoding of a well-formed index gives the index back |
| DenseCodec.EncodeOfDecode | crates/cce-engine/src/dense.rs:440-532 | every accepted byte string of positive dimension is the encoding of what it decodes to |
| DenseCodec.RoundTripExactly | crates/cce-engine/src/dense.rs:440-532 | an index of positive dimension comes back from its encoding exactly when it is well-formed |
| DenseCodec.ZeroDimensionIsEmpty | crates/cce-engine/src/dense.rs:480-532 | an accepted artifact of dimension 0 is empty |
| DenseCodec.NoProperExtension | crates/cce-engine/src/dense.rs:480-532 | no proper prefix or extension of an accepted artifact is accepted |
| DenseLayout.EncodingLayout | crates/cce-engine/src/dense.rs:440-478 | every encoding is the magic "CCEVEC1" and a zero, version 1, dimension and count in 4, 4 and 8 bytes, lowest first, the profile after its length, and the rows |
| DenseLayout.RowLayout | crates/cce-engine/src/dense.rs:466-477 | a row is the id after its length and its floats in 4 bytes each, lowest first, and the other rows follow |
| DenseLayout.NotAnArtifact | crates/cce-engine/src/dense.rs:480-492 | bytes too short, with another magic or another version are refused, each with its error |
| DenseLayout.HeaderAcceptedExactly | crates/cce-engine/src/dense.rs:493-502 | a whole header of version 1 is accepted exactly unless it announces rows of no dimension |
| DenseLayout.ProfileErrors | crates/cce-engine/src/dense.rs:503-506 | a profile that is cut off or not UTF-8 is refused, each with its error |
| DenseLayout.IdErrors | crates/cce-engine/src/dense.rs:512-516 | an id that is cut off or not UTF-8 is refused, each with its error |
| DenseLayout.EncodeErrors | crates/cce-engine/src/dense.rs:440-466 | a dimension, count, profile or id too large for its field is refused, each with its error |
| DenseReader.SliceReader.Take | crates/cce-engine/src/dense.rs:545-552 | takes the first bytes and advances past them, or fails and stays |
| DenseReader.ReadHeader | crates/cce-engine/src/dense.rs:481-499 | reads the header the format specifies and stops after it, or fails with the specified error |
| DenseReader.ReadRows | crates/cce-engine/src/dense.rs:509-520 | the row loop reads the ids and floats the format specifies and stops after them, or fails with the specified error |
| DenseReader.Decode | crates/cce-engine/src/dense.rs:480-532 | the cursor decoder accepts and returns exactly what the format specifies, with the same errors |
| DenseReader.Encode | crates/cce-engine/src/dense.rs:440-478 | the buffer-growing encoder writes exactly the specified bytes, with the same errors |
| DenseBuild.EmbedBatch | crates/cce-engine/src/dense.rs:571-583 | a batch is accepted exactly when all its vectors are non-empty, finite and of one dimension, and is then the normalized model vectors |
| DenseBuild.FreshExactly | crates/cce-engine/src/dense.rs:571-583 | an index can be built exactly when every text embeds to finite floats, at least one and as many as any other; without documents it is empty |
| DenseBuild.FreshRow | crates/cce-engine/src/dense.rs:571-583 | row p of an index holds the id of document p and the normalized vector of its text |
| DenseBuild.FiniteExactly | crates/cce-engine/src/dense.rs:571-583 | of sign, 8 bits of exponent and 23 of fraction, only an exponent of all ones makes a float infinite or no number |
| DenseBuild.Split | crates/cce-engine/src/dense.rs:318-330 | every document gets its reused vector or is pending, and nothing in the reuse map is embedded again |
| DenseBuild.Flatten | crates/cce-engine/src/dense.rs:344-361 | the slots concatenate to the fresh index's floats, or fail exactly when dimensions differ |
| DenseBuild.Build | crates/cce-engine/src/dense.rs:307-361 | with a sound reuse map and any positive batch size the result is the fresh index, or an error exactly when the fresh build fails |
| DenseBuild.DenseReuseMap | crates/cce-engine/src/engine.rs:601-643 | the map holds exactly the vectors of the prior artifact whose document is stored, keyed by the digest of its text; none for another profile or dimension 0 |
| DenseBuild.ReuseOfFreshIsSound | crates/cce-engine/src/engine.rs:601-643 | the reuse map of a fresh index offers for each text the vector the model would give |
| DenseBuild.ReuseOfFreshIsComplete | crates/cce-engine/src/engine.rs:601-643 | every text of the prior snapshot is in the map, so unchanged text is not embedded again |
| DenseBuild.BuildChain | crates/cce-engine/src/dense.rs:307-361 | along any chain of snapshots, each reusing the last stored artifact, every index equals the one built with no reuse |
| Utf8.BoundaryNear | crates/cce-engine/src/engine.rs:2500-2502 | in valid UTF-8 (sections 3 and 4 of RFC 3629) a character boundary lies within the last three bytes before any position |
| Utf8.ValidExactly | crates/cce-engine/src/dense.rs:503-516 | bytes are text exactly when they are the bytes of Unicode scalar values, one after the other |
| Utf8.BoundaryExactly | crates/cce-engine/src/engine.rs:2496-2516 | the character boundaries of a text are its start and the places where one of its characters ends |
| Utf8.CharacterIsScalar | crates/cce-engine/src/dense.rs:503-516 | what starts with a character starts with the shortest bytes of a Unicode scalar value (section 3 of RFC 3629) |
| Utf8.ScalarIsCharacter | crates/cce-engine/src/dense.rs:503-516 | what starts with the bytes of a scalar value starts with a character of just those bytes |
| Chunker.Chunk | crates/cce-engine/src/engine.rs:2493-2521 | the two loops compute the specified ranges, for all inputs |
| Chunker.CoversExactlyWhenCharactersFit | crates/cce-engine/src/engine.rs:2493-2521 | the ranges tile the slice exactly when it fits whole, the bound is 0, or no character is wider than the bound; they always lie on boundaries and within the bound |
| Chunker.CoversFromFour | crates/cce-engine/src/engine.rs:2493-2521 | with a bound of at least 4 the ranges tile and concatenate to the original slice |
| Chunker.FewChunks | crates/cce-engine/src/engine.rs:2504-2512 | with a bound of at least 7 every chunk but the last is longer than half of it, so there are at most 2*length/maximum + 1 |
| Chunker.EndsAfterNewline | crates/cce-engine/src/engine.rs:2504-2512 | a chunk that is not the last ends after a newline, unless none lies past its first half |
| Chunker.ChunkEndsExactly | crates/cce-engine/src/engine.rs:2496-2516 | a chunk ends at the last boundary within the bound, unless the text goes on and a newline comes after more than half the bound; then just after the last such newline |
| Chunker.RangesAreChunks | crates/cce-engine/src/engine.rs:2493-2521 | each range starts where the one before ended and is one chunk |
| Lifecycle.AlwaysInv | crates/cce-engine/src/engine.rs:793-960 | every history of full runs, checkpoints, collections, errors and crashes keeps the lifecycle's invariants |
| Lifecycle.CurrentIsComplete | crates/cce-engine/src/engine.rs:810-842 | the current pointer always names a complete snapshot, and never a checkpoint |
| Lifecycle.LeaseIsExclusive | crates/cce-engine/src/engine.rs:807-809 | writing phases exclude each other across processes, and no run acquires the lease twice |
| Lifecycle.PromisesAreKept | crates/cce-engine/src/engine.rs:811-842 | a full run that activated or committed still holds the lease and finds the pointer at its own, complete, result until it returns |
| LifecycleResults.HistoricalSnapshotIsActivated | crates/cce-engine/src/engine.rs:813-842 | over every history a full run that scanned a complete snapshot and found another one current returns, if it returns, with the snapshot of its last scan complete and current; one that found it current takes no lease there |
| LifecycleResults.ActivationPromotes | crates/cce-engine/src/engine.rs:826-842 | over every history an activation finds its snapshot complete, and makes it current |
| LifecycleResults.ActivationRunsThrough | crates/cce-engine/src/engine.rs:813-960 | after every history a full run that finds its complete snapshot not current and the lease free, left alone, makes it current and returns |
| LifecycleResults.BuildRunsThrough | crates/cce-engine/src/engine.rs:843-960 | after every history a full run whose snapshot is not complete while the lease is free, left alone, builds it, makes it current, prunes an old one and returns |
| LifecycleResults.GateReadsCurrentExactly | crates/cce-engine/src/engine.rs:813-819 | a full run reads the current pointer exactly when the snapshot it scanned is complete, a checkpoint never |
| LifecycleResults.ResultWasComplete | crates/cce-engine/src/engine.rs:843-960 | over every history a full or checkpoint run returns a snapshot that has been complete |
| LifecycleResults.ReuseExactly | crates/cce-engine/src/engine.rs:843-853 | a complete snapshot is reused, by a full run after repairs and by a checkpoint as it is, and an incomplete one is written |
| LifecycleResults.RepairsNeedTheLease | crates/cce-engine/src/engine.rs:871-905 | needed repairs run under the lease or the run ends because another holds it; rebuilding shards never ends a run |
| LifecycleResults.ScanFixesTheTarget | crates/cce-engine/src/engine.rs:804-826 | a scan fixes the snapshot a run is about; one under the lease is tested again |
| LifecycleResults.PruneReadsCurrent | crates/cce-store/src/metadata.rs:990-1002 | a prune reads the current snapshot under the lease, and deletes nothing without one |
| LifecycleResults.SweepSparesExactlyCurrent | crates/cce-store/src/metadata.rs:1003-1047 | a sweep deletes a snapshot it selects exactly when that is not the current one |
| LifecycleResults.CollectionNeedsTheLease | crates/cce-engine/src/engine.rs:750-758 | a collection holds the lease before it prunes, or ends because another does |
| Lifecycle.CurrentMovesOnlyByPromotion | crates/cce-store/src/metadata.rs:767-794 | the pointer moves only by a lease-holding full run, to a snapshot complete at that moment; it is cleared only by a full run rewriting that very snapshot |
| Lifecycle.CurrentIsClearedExactly | crates/cce-store/src/metadata.rs:485-507 | in every history a set pointer is cleared by a step exactly when a lease holder there rewrites the row of the very snapshot it names |
| Lifecycle.OnlyFullRunsMoveCurrent | crates/cce-engine/src/engine.rs:1616-1624 | no step of a checkpoint or a collection moves the pointer |
| Lifecycle.CompleteIsLostOnlyUnderTheLease | crates/cce-store/src/metadata.rs:990-1048 | a snapshot stops being complete only by a lease holder rewriting or pruning it, and pruning spares the current one |
| Lifecycle.LateWriterClearsCurrent | crates/cce-store/src/metadata.rs:485-507 | a run that decided to write before another committed the same snapshot clears the pointer to it, and may then die |
| Lifecycle.CommittedPointerCanBeLost | crates/cce-engine/src/engine.rs:843-960 | such a history exists from the empty store: committed and current first, no current snapshot after |
| QueryFilters.TokenizeFilters | crates/cce-core/src/retrieval.rs:228-261 | the character loop returns the tokens the step-by-step reader specifies |
| QueryFilters.ParseQueryFilters | crates/cce-core/src/retrieval.rs:271-316 | the token loop returns the cleaned query and, for each filter, its last value |
| QueryFilters.TokensAreWellFormed | crates/cce-core/src/retrieval.rs:228-261 | tokens hold white space only inside quotes, and only the last can have its quote open |
| QueryFilters.TokensOfJoin | crates/cce-core/src/retrieval.rs:228-261 | re-tokenizing well-formed tokens joined by single spaces gives exactly those tokens, quoted spans and an unclosed tail included |
| QueryFilters.ParseIsIdempotent | crates/cce-core/src/retrieval.rs:271-316 | for every query the cleaned query parses to itself with no filters |
| QueryFilters.UnclosedIsKept | crates/cce-core/src/retrieval.rs:275-294 | a token whose quote is never closed is kept whole, as the query's tail |
| FilterKeys.ParsedExactly | crates/cce-core/src/retrieval.rs:271-316 | for every query, language, path prefix and hit type are what the last `lang`, `path` and `type` tokens say, the language in lower case; the pattern is what the last `pat` token says, else the text when some token says `patterntype:structural`; the text is all other tokens |
| FilterKeys.SingleFilter | crates/cce-core/src/retrieval.rs:300-310 | a query of one filter, bare or in either quotation mark, sets that filter and nothing else, and one of an unknown key or type stays text |
| FilterKeys.ClaimedExactly | crates/cce-core/src/retrieval.rs:276-310 | a token is taken out of the text exactly when it says a non-empty value under one of the five keys |
| QueryFilters.WhiteExactly | crates/cce-core/src/retrieval.rs:239-244 | white space is the 25 characters of Unicode |
| QueryFilters.KeyCharExactly | crates/cce-core/src/retrieval.rs:249-252 | the characters of a key are the digits, the ASCII letters and the underscore |
| Common.AsciiLowerAt | crates/cce-core/src/retrieval.rs:301 | lower-casing moves the 26 capital letters up by 32 and changes nothing else |
| PatchScan.ParseHunkHeader | crates/cce-engine/src/diff.rs:190-203 | the numbers are those of the last word with each sign, or nothing when one is missing or does not parse |
| PatchScan.ParseExactly | crates/cce-engine/src/diff.rs:195-201 | a number parses exactly when it is digits, after a plus sign or without, and stays below 2^32 |
| PatchScan.MarksExactly | crates/cce-engine/src/diff.rs:135-165 | a file line gives a path, a header line its text, file names and backslash lines nothing, and a blank mark a line of both images |
| PatchScan.ChangesExactly | crates/cce-engine/src/diff.rs:154-165 | a plus line is added and a minus line removed, with the text after the mark, unless it looks like a file name |
| PatchScan.CounterWraps | crates/cce-engine/src/diff.rs:157-171 | a line counter goes up by one, and from 2^32 - 1 to 0 |
| PatchScan.ScanPatch | crates/cce-engine/src/diff.rs:127-188 | the line loop returns the sections the line-by-line scan specifies |
| EditScript.SeenIsImageLessMasked | crates/cce-engine/src/diff.rs:154-156 | each counter falls short of its image by exactly the masked lines |
| EditScript.BodyScanned | crates/cce-engine/src/diff.rs:154-188 | a rendered hunk body, masked lines or not, advances the counters and records matches as the script alone foretells |
| EditScript.MatchesAreImageMatches | crates/cce-engine/src/diff.rs:157-188 | without masked lines in the body the recorded numbers are those of the lines in the two files |
| EditScript.ImageMatchesExactly | crates/cce-engine/src/diff.rs:154-188 | a body reports its matching lines at their image numbers, for every regex, exactly when none of its lines is masked |
| EditScript.MatchesOnImage | crates/cce-engine/src/diff.rs:157-188 | a match recorded as added is the line of that number in the new file, one recorded as removed in the old file |
| PatchText.HeaderReadExactlyWhenHarmless | crates/cce-engine/src/diff.rs:190-203 | a rendered header is read back exactly when no heading word changes either number |
| PatchText.ArrowDropsHeader | crates/cce-engine/src/diff.rs:195-201 | a return arrow in the heading makes the scanner ignore the header |
| PatchText.BlankPathIsLost | crates/cce-engine/src/diff.rs:136-144 | a path with a blank is filed under what follows the blank, or under nothing |
| PatchText.PathReadExactlyWhenPlain | crates/cce-engine/src/diff.rs:136-144 | a file's path is read back from its diff line exactly when it holds no white space |
| PatchText.FileNamesAreInert | crates/cce-engine/src/diff.rs:154-156 | the file-name lines of a patch, and its index and mode lines, change nothing in the scan |
| PatchText.PatchScanned | crates/cce-engine/src/diff.rs:127-188 | for any readable patch a path has a section exactly when a shown line of it matches; it holds the first 32 matches in order and counts all others |
| PatchText.FileMatchesExactly | crates/cce-engine/src/diff.rs:157-188 | a file's matches are exactly those of the lines its hunks show, each at its number in its image |
| Impact.ImpactAnalysis | crates/cce-engine/src/atlas.rs:572-610 | the stack loop ends, and returns what the specified search reports |
| ImpactEdges.DirectDependentsExactly | crates/cce-engine/src/atlas.rs:555-606 | an entity is reported at hop 1 exactly when it is known and one of the first 256 edges into a seed comes from it along one of the six kinds |
| ImpactEdges.FirstEdgeIsShown | crates/cce-engine/src/atlas.rs:591-606 | a direct dependent of the last seed is shown with the kind and confidence of the first such edge |
| ImpactLevels.LevelsAreSeedLevels | crates/cce-engine/src/atlas.rs:572-610 | the levels at which the search first meets the entities are those of following the seeds from the last to the first, whatever the order of the edges |
| ImpactLevels.FollowedSeed | crates/cce-engine/src/atlas.rs:583-606 | following a seed keeps all levels, and gives an entity not met before 1 exactly when it depends on the seed, else 2 exactly when it depends on a level-1 dependent of it |
| ImpactLevels.ReportByLevels | crates/cce-engine/src/atlas.rs:572-610 | for any seeds the report is exactly the known entities with an impact edge into one at such a level 0 or 1, at the least such level plus one |
| ImpactLevels.MissedExactly | crates/cce-engine/src/atlas.rs:572-610 | a known entity within two hops is missed exactly when every entity it could be reached through is at level 2 |
| ImpactLevels.CompleteExactly | crates/cce-engine/src/atlas.rs:572-610 | the report holds all known entities within two hops exactly when each is reached through some entity at level 0 or 1 |
| Impact.ReportIsSound | crates/cce-engine/src/atlas.rs:572-610 | every reported entity has a walk of its hop count, 1 or 2, to a seed, and every direct dependent is reported at hop 1 |
| Impact.LayeredReportIsComplete | crates/cce-engine/src/atlas.rs:572-610 | for one seed, or when no direct dependent depends on another, the report is exactly the entities within two hops, at their least hop count; a sufficient condition on the edges alone |
| Impact.SecondHopMissed | crates/cce-engine/src/atlas.rs:572-610 | a graph and two seeds for which an entity two hops away is not reported |
| RankMetrics.Ndcg | research/cce_research/metrics.py:410-433 | the loop over candidates computes the discounted sum of the deduplicated gains over the ideal sum |
| RankMetrics.LeadingRanksAreBest | research/cce_research/metrics.py:429-432 | a gain list sums to at most as many gains in the leading ranks, and reaches that sum only there |
| RankMetrics.DcgBound | research/cce_research/metrics.py:410-433 | with both kinds annotated the gain sum is at most the ideal sum over all gold units |
| RankMetrics.NdcgAtMostOne | research/cce_research/metrics.py:410-433 | with one kind annotated nDCG lies in [0, 1], and is 1 exactly when every leading rank gains |
| RankExcess.NdcgExceedsOneExactly | research/cce_research/metrics.py:410-433 | for every case some list exceeds 1 exactly when there are gold ranges and more of them can be hit one by one than there are gold ranges less gold files |
| RankExcess.NdcgCanExceedOne | research/cce_research/metrics.py:410-433 | with both kinds annotated and gold ranges that can be hit one by one, some list exceeds 1 |
| RankExcess.WithinOneExactlyForOneKind | research/cce_research/metrics.py:410-433 | when no two gold ranges of a file start on the same line, all lists stay within 1 exactly when one kind is not annotated |
| Holm.HolmBonferroni | research/cce_research/stats.py:147-161 | the returned map holds the step-down decision for each hypothesis, and for a non-negative alpha marks it significant exactly when every family that contains it passes Bonferroni's test |
| Holm.StepDownIsClosedTesting | research/cce_research/stats.py:152-160 | the step-down decision at a sorted position is the closed-testing decision |
| Holm.ErrorNeedsASmallPValue | research/cce_research/stats.py:148-149 | if the returned map rejects some member of a set of hypotheses, some member has a p-value of at most alpha over the set's size |
| Holm.AtLeastBonferroni | research/cce_research/stats.py:147-161 | the returned map rejects whatever plain Bonferroni rejects |
| Holm.RejectionsArePrefix | research/cce_research/stats.py:150-160 | the returned map rejects whatever lies at or below a p-value it rejects |

## Left out

- HTTP, JSON, the command line, the web interface, metrics and logging: only the protocol steps they drive are modelled.
- The MCP path of the gateway: it takes the same breaker steps as a proxy request that is not cacheable.
- Cancellation is a step (`Abort`) of the gateway model; the ledger theorems that need every call to report say so.
- A push is its three effects on content, index and cache; its lock is not modelled, because an abandoned push and its successor are already two materializations before one invalidation.
- Semaphores are counters without queues: the waiting time before a request is shed, and fairness among waiters, are not modelled.
- The wording of the orientation text and the uncertainties of a pack: the text is a parameter, the uncertainties are not built.
- `subject_backlinks` and the re-ranking before the packer: the packer takes any hit list.
- ContextHits.EstimateOfConcat: token counts are unbounded, because no string is long enough for the source's saturating addition to saturate.
- `std::path` on paths that are not normalized: an address's path is normalized by its type (crates/cce-core/src/address.rs:16).
- DenseReader.Decode: running out of memory while reserving space for a huge count is not modelled; floats are 32-bit patterns.
- DenseBuild.Build: the embedder is a pointwise deterministic function and normalization keeps the length; batching inside the ONNX runtime is not modelled.
- DenseIndex::score: a dot product and a sort over rounded floats, with only easy members over the reals.
- Storage of a hash digest as text: a digest is any injective function.
- PatchScan.ScanPatch: takes the list of lines; splitting a patch at line ends, with carriage returns stripped, and the sorted map of sections are the library's. Line counters wrap at 32 bits, as in a release build.
- PatchText.PatchScanned: assumes readable files, that is plain paths, no masked line in a hunk, headings that leave the header's numbers alone and images shorter than the counters; each of these is shown to matter by a lemma of its own, except the last.
- Lifecycle.CurrentMovesOnlyByPromotion: which snapshots a prune selects is left open beyond sparing the current one; creation times are not modelled.
- Lifecycle.PromisesAreKept: one repository and its lease are modelled; the activation's check for foreign snapshots cannot fail there.
- LifecycleResults.PruneReadsCurrent: a prune that finds no current snapshot ends its run with an error in the source; here it ends, without deleting anything.
- View manifests, provider runs and the content of a commit: a commit is one atomic step, as the store's transaction makes it.
- Impact.LayeredReportIsComplete: its condition is sufficient only; the exact one is that of ImpactLevels.CompleteExactly.
- Breaker.OpenCircuitBound: one-way, because it speaks of every open state; what an opening allows exactly is BreakerProbes.ProbesAtAnOpening.
- Impact.ImpactAnalysis: the limit of 256 edges per entity belongs to the store's answer, which is a parameter; the final sort of the report is not modelled.
- RankMetrics.Ndcg: the discount is any positive, strictly decreasing function of the rank, and sums are over the reals.
- Holm.HolmBonferroni: p-values and alpha are reals; ties are kept in input order by the stable sort.
- SearchCache.Cache.Put: times are natural numbers; the clock does not run backwards.
- `boundary_violations`, `bpref`, `case_clusters`, `collapse_clusters`, `merge_relations`, histogram counters and status builders: they would add easy members only.
- `materialize` and the atomicity of directory renames: they need a model of the file system.
