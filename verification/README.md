# Breakwater reliability model

Breakwater is an LLM gateway whose reliability mechanisms are small
hand-written state machines: a prompt-prefix index, circuit breakers over ring
windows, a response cache with a count-min admission gate and a singleflight, a
quota ledger, token buckets, an attempt loop with fallbacks and credentials,
rotation control, and layered limits. This project models each of them in Dafny
and proves what it guarantees over every run, interleaving or input.

Each mechanism has a value-level reference (functions on immutable state) and,
where the program updates state in place, a class or a loop proved equal to it.
The guarantees are lemmas about the reference. `dafny verify dfyconfig.toml`
checks everything.

| file | what it models |
|---|---|
| `Affinity.dfy`, `AffinityRuns.dfy`, `AffinityTrie.dfy` | the prefix index as values; runs of picks against the clock; one trie on the heap refining the values |
| `RollingWindow.dfy`, `BucketRing.dfy` | the forty-bucket ring as an event log; the ring buffer refining it |
| `Governor.dfy`, `ConsecutiveBreaker.dfy`, `SlowBreaker.dfy`, `RatioBreaker.dfy` | the three-state skeleton and the three strategies |
| `SlowRuns.dfy`, `SlowRecovery.dfy` | whole runs of the slow-call breaker against its event log, and what follows a recovery or an idle gap |
| `FrequencySketch.dfy`, `ResponseCache.dfy`, `Singleflight.dfy` | the cache's admission gate, its capped map, its deduplicated fetches |
| `QuotaLedger.dfy`, `Reconcile.dfy`, `LeaseHorizon.dfy` | leases and balances, snapshot reconciliation, the lease horizon |
| `RateLimiter.dfy` | continuous token buckets and their idle sweep |
| `CredentialRing.dfy`, `Rotation.dfy` | credential picks; disable channels, retirement and revival interleaved |
| `FallbackPlan.dfy`, `Relay.dfy`, `RetryBudget.dfy` | the lazy fallback plan, the attempt engine, the shared retry budget and backoff |
| `Tiers.dfy` | folding limit layers into one decision |
| `Basics.dfy` | what the others share |

Clocks are integer nanoseconds passed in and never decreasing along a run,
`float64` is `real`, hashes are arbitrary functions, random draws and map
iteration order are arbitrary, and 64-bit integers wrap only where the code
guards against overflow (`addDuration`, the backoff ceiling, the reported wait).

## Where the code and its documentation disagree

The model follows the code. Each point has a lemma with a concrete failing case
and a lemma with the exact condition.

- `internal/circuit/ratio.go:12-14` and `:58-63` promise that a denied upstream
  gets a forced pass every second. The forced pass is gated on a recorded last
  pass, so a guard that has never passed a call against a positive ratio can
  deny forever (`RatioBreaker.StarvedForever`). Exactly when an interval without
  a pass guarantees the next one is `RatioBreaker.IntervalPassIff`.
- The rings clip an advance to forty buckets (`internal/circuit/ratio.go:253-267`,
  `internal/circuit/slow.go:183-201`). Reads equal the event log exactly as long
  as no write comes more than forty buckets after the mark
  (`RollingWindow.AlwaysTrueIffNoLongGap`); after eighty idle buckets even the
  write just made is invisible to a read at the same instant
  (`RollingWindow.OwnWriteVisibleIff`, `RollingWindow.LongGapLosesEvents`). The
  one-sided claim needs no condition (`RollingWindow.RingNeverExceedsLog`).
- `internal/circuit/slow.go:10-13` promises that a closed breaker opens when the
  window's slow share reaches the ratio over enough samples. Two things leave the
  write mark behind. A recovery empties the buckets and leaves the mark where the
  breaker opened, at least a cooldown back, so with the default thirty seconds the
  first ten slow calls after a recovery do not open it
  (`SlowRecovery.RecoveryMissesTheFirstTen`,
  `SlowRecovery.DefaultCooldownNeedsTwelve`). An idle gap while closed does the
  same (`SlowRecovery.IdleGapMissesTheFirstTen`). From a ring so far filed truly,
  every decision on steady evidence, no two completions of it more than forty
  buckets apart, meets the promise exactly when it starts less than forty-one
  buckets after the mark (`SlowRecovery.EvidenceDecidesIff`, over runs of the
  breaker `SlowRecovery.RunDecidesIff`); over a whole run of completions, exactly
  when none comes more than forty buckets after the mark
  (`SlowRecovery.AlwaysDecidedIffNoLongGap`).
- `internal/upstream/credential.go:62-66` says picks, concurrent ones and one
  request's exclusion walk included, never repeat before the ring has been walked
  once. Without exclusions picks made one after another do not
  (`CredentialRing.WalksBeforeRepeating`); with them one can repeat at once, or
  before the rest have served (`CredentialRing.ExclusionRepeatsAtOnce`). A run of
  picks walks the ring exactly when none after the first skips the credential that
  is due (`CredentialRing.WalksIffNoSkip`; what a skip is, per pick, in
  `CredentialRing.ExclusionMovesIff`, and when it repeats at once in
  `CredentialRing.ExclusionRepeatsIff`). Concurrent picks can repeat without any
  exclusion: the cursor's add and store are two accesses, and a store that comes
  late moves the cursor back (`CredentialRing.InterleavedPicksRepeat`); one that
  nothing comes between is a pick at one step (`CredentialRing.UndisturbedIsPick`).
- `internal/relay/executor.go:505-520` says a fresh credential is guaranteed when
  more are alive than were burned, which holds, but the test misses a fresh one
  when a burned credential has already been retired
  (`CredentialRing.RetiredBurnHidesRotation`, exactly when in
  `CredentialRing.RotatesIff`). A Retry-After is then waited for although the
  next pick is fresh.
- `internal/limiter/memory.go:177-185` says the idle sweep is invisible. It is,
  unless a call with its ceiling switched off meets an idle bucket that holds
  something else than the disabled ceiling would create
  (`RateLimiter.SweepIsInvisible`), and then a later call always can tell
  (`RateLimiter.NoisyCallShows`; per call exactly when in
  `RateLimiter.IdleSweepUnnoticedIff`).
- `internal/cache/memory.go:62-65` says a newcomer is admitted only when its read
  frequency beats the victim's. A tie admits it too, as `:12-13` and `:216-219`
  say (`ResponseCache.Cache.Admit`).

## Model

| member | source | states |
|---|---|---|
| `Affinity.GreedyWalkIsLongestMatch` | internal/affinity/affinity.go:166-192 | the walk that stops at the first depth without an eligible hit returns the lowest-position candidate at the deepest prefix any candidate is held at, found independently from the far end |
| `Affinity.NestedAlongPath` | internal/affinity/affinity.go:200-223 | in a good trie an upstream at a node is at every non-root ancestor |
| `Affinity.FreshAlongPath` | internal/affinity/affinity.go:166-223 | no ancestor's touch is older than a descendant's |
| `Affinity.PickKeepsGood` | internal/affinity/affinity.go:166-223 | one pick keeps a trie rooted, nested, touch-ordered, within the node ceiling and untouched by the future |
| `Affinity.SweepKeepsGood` | internal/affinity/affinity.go:231-258 | so does a sweep, which is a filter on touch times |
| `Affinity.RunsKeepGoodIndex` | internal/affinity/affinity.go:120-158 | so does any run of picks, sweeps and model creations, with the model count within its ceiling |
| `Affinity.EveryPickIsTheLongestMatch` | internal/affinity/affinity.go:120-192 | every pick of every run from an empty index promotes the lowest-position candidate at the deepest prefix any candidate is held at, and otherwise leaves the router's order |
| `Affinity.RepeatedPickAgrees` | internal/affinity/affinity.go:120-158 | asking again within the TTL with nothing in between comes down to the same upstream, at or below the ceilings, and to the same position when no upstream is listed twice |
| `AffinityRuns.StaleNodesAreGone` | internal/affinity/affinity.go:126-139 | after every pick of every run nothing below a root was last touched more than one and a half TTLs before |
| `AffinityRuns.PromotedWasRecorded` | internal/affinity/affinity.go:120-158 | a promoted upstream was recorded by an earlier request of the run on a prefix of this prompt, and at every instant since then that prefix had been used within the last one and a half TTLs |
| `AffinityRuns.FreshNodesStay` | internal/affinity/affinity.go:231-258 | what a node holds it still holds as long as no request comes more than a TTL after its touch |
| `AffinityRuns.SweepsWhenDue` | internal/affinity/affinity.go:126-139 | a pick sweeps exactly when none has or the last is half a TTL back, and forgets nothing when it does not |
| `AffinityRuns.PickMovesNode` | internal/affinity/affinity.go:120-258 | what one pick does to every node of the index: along the prompt's chain it gains the served upstream and the touch, elsewhere it is as it was, and gone is exactly what a sweep found past its TTL |
| `AffinityRuns.PickFillsToTheCeilings` | internal/affinity/affinity.go:139-158 | the whole chain is recorded unless its trie is at the node ceiling, a model is left without a trie only when the model ceiling is full, and a sweep leaves no other trie empty |
| `AffinityRuns.OldRecordIsPromoted` | internal/affinity/affinity.go:166-223 | the record itself may be older: kept warm by another upstream's requests, one recorded two TTLs ago is promoted |
| `AffinityTrie.PrefixTrie.Match` | internal/affinity/affinity.go:166-192 | the loop over heap nodes returns the reference match and leaves the reference touches |
| `AffinityTrie.BestHit` | internal/affinity/affinity.go:178-186 | the map-order loop over a node's upstreams finds the lowest router position, or none exactly when no candidate is held |
| `AffinityTrie.PrefixTrie.Record` | internal/affinity/affinity.go:200-223 | the loop that hangs nodes and stamps upstreams equals the reference record, ceiling included |
| `AffinityTrie.PrefixTrie.MatchAndRecord` | internal/affinity/affinity.go:146-157 | match, choice and record in place equal the reference pick |
| `AffinityTrie.PrefixTrie.PruneAll` | internal/affinity/affinity.go:246-258 | the recursive prune removes exactly the nodes untouched for longer than the TTL and the counter stays the node count |
| `RollingWindow.RingRefinesLog` | internal/circuit/ratio.go:207-267 | from a ring filed truly, with no write more than forty buckets after the mark, every read equals the event log over the last forty buckets |
| `RollingWindow.RingNeverExceedsLog` | internal/circuit/slow.go:183-221 | with any gaps, reads never exceed that log |
| `RollingWindow.ReadNeverOvercounts` | internal/circuit/ratio.go:211-238 | every counted event happened inside the window and none is counted twice |
| `RollingWindow.ReadExactIff` | internal/circuit/ratio.go:253-267 | a read is exact exactly when no event was filed too far back |
| `RollingWindow.OwnWriteVisibleIff` | internal/circuit/ratio.go:253-267 | a write is visible to a read at its own instant exactly when fewer than eighty buckets had passed |
| `RollingWindow.AlwaysTrueIffNoLongGap` | internal/circuit/ratio.go:253-267 | from a ring filed truly, for writes that record something, every read after any of them, then or later, equals the event log exactly when no write came more than forty whole buckets after the mark |
| `RollingWindow.LongGapLosesEvents` | internal/circuit/ratio.go:253-267 | one event after twenty-five idle seconds reads back as nothing |
| `BucketRing.Ring.Roll` | internal/circuit/ratio.go:253-267 | the cursor loop empties exactly the buckets that left the window |
| `BucketRing.Ring.Add` | internal/circuit/ratio.go:241-247 | adding in place is one write to the log |
| `BucketRing.Ring.Total` | internal/circuit/slow.go:205-221 | the summing loop over modular indices equals the reference read |
| `BucketRing.Ring.Clear` | internal/circuit/slow.go:168-170 | emptying in place empties the log and keeps the mark |
| `BucketRing.Ring.Restart` | internal/circuit/slow.go:148-163 | emptying with a new mark starts an empty log there |
| `BucketRing.Ring.Reinit` | internal/circuit/ratio.go:186-195 | a replaced state is a fresh empty log |
| `RatioBreaker.ReadHistory` | internal/circuit/ratio.go:211-238 | the read-only loop computes totals, accepts and the failing and working runs of the live ordinals |
| `RatioBreaker.RatioGuard.Allow` | internal/circuit/ratio.go:138-175 | admission in place is the reference decision, the denial recorded as an event; an admitted call gets an unreported permission |
| `RatioBreaker.RatioGuard.Report` | internal/circuit/ratio.go:282-298 | a first report files health or failure, a gateway cut nothing; a second report is absorbed |
| `RatioBreaker.RatioGuard.Reset` | internal/circuit/ratio.go:186-195 | a reset forgets the evidence and the last pass |
| `RatioBreaker.DeniedIff` | internal/circuit/ratio.go:138-175 | a call is denied exactly when it draws below the chance the window's events give, five protected, healthy ones weighted down by the run of failing buckets and the whole diluted by the run of working ones, and no pass a second old is on record |
| `RatioBreaker.FailingRunCounts` | internal/circuit/ratio.go:223-236 | the run is the number of buckets with a failure since the last with a healthy answer |
| `RatioBreaker.WorkingRunCounts` | internal/circuit/ratio.go:223-236 | and of buckets with a healthy answer since the last with a failure |
| `RatioBreaker.WeightFalls` | internal/circuit/ratio.go:143-151 | the weight falls evenly from 1.5 to 1.1 over a whole window of failing buckets |
| `RatioBreaker.DropRatioSign` | internal/circuit/ratio.go:143-151 | the ratio is positive exactly when events beyond the protection outnumber weighted healthy ones, and always below one |
| `RatioBreaker.DenyChanceBelowOne` | internal/circuit/ratio.go:143-165 | the diluted chance never reaches one |
| `RatioBreaker.SmallWindowAdmits` | internal/circuit/ratio.go:143-151 | five or fewer events admit whatever the draw |
| `RatioBreaker.IdleWindowAdmits` | internal/circuit/ratio.go:211-238 | nothing in the last forty buckets admits whatever the draw |
| `RatioBreaker.IntervalPassIff` | internal/circuit/ratio.go:152-165 | with no pass in the last interval the next call passes whatever the draw exactly when a pass against a positive ratio is on record or the chance is nothing |
| `RatioBreaker.DeniedOnlyNearAPass` | internal/circuit/ratio.go:138-175 | over any run, once a call has passed against a positive ratio, each denial follows an admitted call by less than an interval |
| `RatioBreaker.StarvedForever` | internal/circuit/ratio.go:152-165 | from a new guard, after any number of failures above the protection, a run of one call a second that draws zero is denied every time, however long |
| `Governor.ProbeDiscipline` | internal/circuit/machine.go:62-151 | over any run: probe slot only in half-open, at most one probe per episode, k admissions with no closed state between span k-1 cooldowns |
| `Governor.CallAdmittedIff` | internal/circuit/machine.go:62-95 | in any run a call is admitted exactly when the breaker is closed, or a cooldown has passed since the event that last opened it and no probe is out; outside closed it gets a new grant due a probe timeout later |
| `Governor.PositionRead` | internal/circuit/machine.go:102-116 | in any run the position read is open exactly within a cooldown of the last opening or on finding a probe overdue, which reopens it |
| `Governor.ProbeReportDecides` | internal/circuit/breaker.go:204-238 | the probe's own report closes when healthy and in time and otherwise opens for a whole new cooldown, the slot free either way |
| `Governor.AdmissionsApart` | internal/circuit/machine.go:62-151 | any two admitted calls of a run with the breaker not closed in between are a cooldown apart |
| `Governor.OnlyLatestGrantMoves` | internal/circuit/breaker.go:179-243 | in any reachable state outside closed only the latest grant's holder moves the machine |
| `Governor.OnlyHealthyProbesClose` | internal/circuit/breaker.go:204-238 | in any run a breaker closes exactly on a reset or on the latest probe's own healthy report before its deadline: not a late one, not a cut one, not a stranger's |
| `Governor.GrantsNeverRepeat` | internal/circuit/machine.go:62-95 | no two probes of a run carry the same grant |
| `Governor.ReadsAreInvisible` | internal/circuit/machine.go:102-116 | in no run does reading the position change what the next call gets or leaves |
| `Governor.BreakerMachine.Admit` | internal/circuit/machine.go:62-95 | admission in place is the reference gate |
| `Governor.BreakerMachine.Look` | internal/circuit/machine.go:102-116 | reading in place performs the lazy transitions |
| `Governor.BreakerMachine.Move` | internal/circuit/machine.go:123-141 | entering a position sets its clock and clears the slot where the code does |
| `ConsecutiveBreaker.OpensExactlyOnStreak` | internal/circuit/breaker.go:179-203 | under reports by any permissions at any instants a closed breaker stays closed exactly when no prefix of them ends in a full streak of server faults |
| `ConsecutiveBreaker.CountsTheStreak` | internal/circuit/breaker.go:147-243 | in any run of calls, reads, reports and resets a closed breaker has counted exactly the streak heard since it last became closed or was reset, which is not full |
| `ConsecutiveBreaker.OpensOnAFullStreak` | internal/circuit/breaker.go:179-203 | and the next report opens it exactly when that streak, the report included, is full |
| `ConsecutiveBreaker.ProbeDisciplineHolds` | internal/circuit/breaker.go:125-243 | every run of this strategy is a run of the shared skeleton, so the probe discipline holds of it |
| `ConsecutiveBreaker.Breaker.Report` | internal/circuit/breaker.go:179-243 | reports in place, first one only, equal the reference |
| `ConsecutiveBreaker.Breaker.Allow` | internal/circuit/breaker.go:125-131 | admission hands out an unreported permission carrying the grant, or none exactly when denied |
| `ConsecutiveBreaker.Breaker.StateOf` | internal/circuit/breaker.go:136-141 | reading reports the position after the lazy transitions |
| `ConsecutiveBreaker.Breaker.Reset` | internal/circuit/breaker.go:147-154 | an operator's reset closes, frees the slot and clears the streak |
| `SlowRuns.TripsByTheLog` | internal/circuit/slow.go:237-293 | over any run of calls, reads, reports and resets, a report whose read misses nothing still in the window opens the breaker exactly when the log of completions since the evidence was last emptied has enough of them and the slow share reaches the ratio |
| `SlowRuns.TripsByTheShare` | internal/circuit/slow.go:237-293 | the same by the outcomes heard: at least ten completions in the last forty buckets, and slow answers and server faults making up the ratio |
| `SlowRuns.OpensOnlyOnEvidence` | internal/circuit/slow.go:237-262 | with any gaps, a closed breaker is only opened by a completed call's report, never by one the gateway cut short, and only on ten completions really in the last forty buckets |
| `SlowRuns.RecoveryLags` | internal/circuit/slow.go:280-293 | after any recovery the write mark lags at least the cooldown |
| `SlowRuns.ProbeDisciplineHolds` | internal/circuit/slow.go:126-163 | every slow-call run is a run of the shared skeleton, so the probe discipline holds of it, one probe an episode included |
| `SlowRecovery.EvidenceDecidesIff` | internal/circuit/slow.go:168-221 | from a ring filed truly, emptied or not, every decision on steady evidence (no two completions more than forty buckets apart) agrees with the log exactly when that evidence starts less than forty-one buckets after the write mark |
| `SlowRecovery.AlwaysDecidedIffNoLongGap` | internal/circuit/slow.go:183-262 | for any run of completions, every decision on steady evidence from any of them on agrees with the log exactly when none comes more than forty whole buckets after the mark |
| `SlowRecovery.RunDecidesIff` | internal/circuit/slow.go:168-293 | the same condition after any run of calls, reads, reports and resets whose completions since the last emptying left no long gap |
| `SlowRecovery.BurstOpensIff` | internal/circuit/slow.go:183-262 | with nothing on record a read still counts, slow completions at one instant open the closed breaker exactly from ten plus the gap's whole forty-bucket spans less one |
| `SlowRecovery.LaggingMarkMissesTheFirstTen` | internal/circuit/slow.go:183-262 | with the mark twenty seconds behind and nothing in the window, the first ten slow completions leave the breaker closed though the log is saturated |
| `SlowRecovery.IdleGapMissesTheFirstTen` | internal/circuit/slow.go:183-262 | so does one fast completion followed by thirty idle seconds |
| `SlowRecovery.RecoveryMissesTheFirstTen` | internal/circuit/slow.go:237-293 | with a cooldown of twenty seconds or more, the first ten slow completions at one instant after any recovery of any run leave the breaker closed though the log is saturated |
| `SlowRecovery.DefaultCooldownNeedsTwelve` | internal/circuit/slow.go:98-121 | opened at instant 0 and recovered after the default thirty seconds, twelve are needed |
| `SlowBreaker.Breaker.Report` | internal/circuit/slow.go:237-293 | reports in place, first one only, equal the reference |
| `SlowBreaker.Breaker.Allow` | internal/circuit/slow.go:126-132 | admission runs the same gate and leaves the window alone |
| `SlowBreaker.Breaker.StateOf` | internal/circuit/slow.go:137-142 | so does reading |
| `SlowBreaker.Breaker.Reset` | internal/circuit/slow.go:148-163 | a reset closes and empties the window |
| `FrequencySketch.Sketch.Record` | internal/cache/admission.go:120-132 | after any reads every counter of every row and every bit of the doorkeeper is exactly what the reads come to |
| `FrequencySketch.Sketch.Admit` | internal/cache/admission.go:120-126 | one read bumps the key's counters if the doorkeeper held it and no other, and sets its bits and no other |
| `FrequencySketch.Sketch.Decay` | internal/cache/admission.go:127-131 | the end of an epoch halves every counter and empties the doorkeeper |
| `FrequencySketch.Sketch.Estimate` | internal/cache/admission.go:138-155 | an estimate is the least of the key's counters plus its presence |
| `FrequencySketch.FloorIsLeast` | internal/cache/admission.go:143-150 | no counter of the key is below that floor and one is at it |
| `FrequencySketch.NeverUndercounts` | internal/cache/admission.go:120-155 | after any reads an estimate is never below the exact frequency, through saturation, collisions and the epochs' halving, and at most sixteen |
| `FrequencySketch.OwnSlotIsExact` | internal/cache/admission.go:120-155 | a key with a counter of its own in some row and a bit of its own in the door is estimated exactly |
| `FrequencySketch.EpochsAreWide` | internal/cache/admission.go:120-132 | every epoch is as many reads as the rows are wide |
| `FrequencySketch.Sketch.Increment` | internal/cache/admission.go:175-184 | bumps the key's nibble in each row and no other counter |
| `FrequencySketch.Sketch.Halve` | internal/cache/admission.go:188-195 | halves every counter of every row |
| `FrequencySketch.Sketch.DoorAdd` | internal/cache/admission.go:200-217 | reports an earlier presence exactly, and sets the key's bits and no other |
| `FrequencySketch.IncrementStaysInNibble` | internal/cache/admission.go:175-184 | adding below saturation never carries into the neighbouring nibble |
| `FrequencySketch.ShiftHalvesBoth` | internal/cache/admission.go:188-195 | the masked byte shift halves both nibbles exactly |
| `FrequencySketch.EpochFrequency` | internal/cache/admission.go:120-155 | the exact counter: within an epoch, one for the first read and one for each later, on top of what was left, capped |
| `FrequencySketch.EpochLeavesHalf` | internal/cache/admission.go:120-132 | the read that completes an epoch leaves half of what its reads came to, and nobody seen |
| `FrequencySketch.AdmissionWidth` | internal/cache/admission.go:95-107 | the width is the smallest power of two covering the clamped budget |
| `Singleflight.FetchesNeverOverlap` | internal/cache/singleflight.go:64-100 | in every interleaving no two fetches for one key run at once |
| `Singleflight.HolderRemovesItsOwn` | internal/cache/singleflight.go:77-99 | a finishing holder removes its own flight's entry and no other |
| `Singleflight.EveryoneGetsTheFlightsResult` | internal/cache/singleflight.go:64-115 | everyone who comes back with a result has exactly what the one fetch of its flight produced, panics as errors |
| `Singleflight.OwnersRanTheFetch` | internal/cache/singleflight.go:64-115 | a caller comes back as owner only when its own fetch returned, raises only when its own fetch panicked, and otherwise had joined the flight it answers for |
| `Singleflight.WaitersHaveAHolder` | internal/cache/singleflight.go:77-115 | a waiter can receive or its flight still has a holder that will close it |
| `ResponseCache.HitsAreTheLastSet` | internal/cache/memory.go:120-236 | over any gets and sets the cache stays within capacity and a hit is the last positive-TTL set of that key before its expiry |
| `ResponseCache.Cache.Set` | internal/cache/memory.go:141-193 | a set in place is one allowed transition of residents and sweep timer: sweep and re-arm if due, then store, refresh, displace the least read of a sample or reject |
| `ResponseCache.SetIsServed` | internal/cache/memory.go:120-193 | a set of a resident key, or with room left, is served back until its own expiry |
| `ResponseCache.OnlyDisplacementEnds` | internal/cache/memory.go:141-236 | no other key's operation ends a key's being served before its expiry, but a newcomer's to a full cache that is read at least as often |
| `ResponseCache.DeadEntriesLeave` | internal/cache/memory.go:168-178 | after every set of a run nothing resident expired more than a second before |
| `ResponseCache.Cache.Get` | internal/cache/memory.go:120-137 | a get answers the reference lookup |
| `ResponseCache.Cache.Sweep` | internal/cache/memory.go:199-205 | the deletion loop keeps exactly the unexpired entries |
| `ResponseCache.Cache.Admit` | internal/cache/memory.go:211-236 | a newcomer displaces at most one resident, the least read of a sample of five, and only one read no more often: a tie displaces too |
| `ResponseCache.LifetimeBounds` | internal/cache/memory.go:141-165 | a lifetime is its base spread by at most a tenth either way, exactly its base at the middle draw, floored and saturated |
| `QuotaLedger.LedgerConserves` | internal/quota/memory.go:83-227 | after any run balances are non-negative, balance plus live reservations plus consumption is what was granted, and each lease pays back at most once |
| `QuotaLedger.RunConserves` | internal/quota/memory.go:83-227 | free plus held plus the settled usage, each up to its reservation, equals the net of the run's corrections |
| `QuotaLedger.OnlyCorrectionsGrant` | internal/quota/memory.go:83-100 | granted totals move only at provisioning or a correction, consumption only at a settle |
| `QuotaLedger.BalanceNeverExceedsGrant` | internal/quota/memory.go:126-150 | no balance exceeds what was granted |
| `QuotaLedger.ReserveGrantsIff` | internal/quota/memory.go:103-123 | a reservation is granted exactly when what was granted covers it beside what is held and consumed, and then is held and moves nothing else |
| `QuotaLedger.ClosesOnce` | internal/quota/memory.go:126-169 | settling pays back what a live lease did not use, cancelling the whole; an ended lease is left alone, an unknown one is an error |
| `QuotaLedger.SweepDecides` | internal/quota/memory.go:200-227 | of the leases one sweep meets, the first overdue ones up to the limit expire, those ended over an hour ago are forgotten, the rest stay |
| `QuotaLedger.ClosePaysOnce` | internal/quota/memory.go:126-169 | closing a live lease moves its refund and its one credit |
| `QuotaLedger.Ledger.SetBalance` | internal/quota/memory.go:83-88 | in place equals the reference correction |
| `QuotaLedger.Ledger.EnsureBalance` | internal/quota/memory.go:92-100 | in place provisions exactly a missing tenant |
| `QuotaLedger.Ledger.Reserve` | internal/quota/memory.go:103-123 | in place debits and records, or refuses with nothing changed |
| `QuotaLedger.Ledger.Settle` | internal/quota/memory.go:126-150 | in place refunds the unused part once, errors on unknown or closed leases |
| `QuotaLedger.Ledger.Cancel` | internal/quota/memory.go:153-169 | in place refunds the whole once |
| `QuotaLedger.Ledger.SweepOnce` | internal/quota/memory.go:200-227 | the bounded pass in whatever order it ranged equals the reference sweep of that order |
| `Reconcile.NoDriftBetweenCorrections` | internal/quota/reconcile.go:114-139 | over any run two snapshots with no correction between have zero drift |
| `Reconcile.UnpairedMovementIsTheDrift` | internal/quota/reconcile.go:114-139 | after any such run a balance moved past the ledger drifts by exactly what was moved |
| `Reconcile.VerdictIsTheTenantsOwn` | internal/quota/reconcile.go:93-139 | a tenant is reported exactly when its ledger was read and stored, its stored snapshot before it is of the same epoch, and debits less refunds are not what the balance fell by, whatever failed elsewhere |
| `Reconcile.CheckedCounts` | internal/quota/reconcile.go:93-124 | the round counts exactly the tenants with two comparable snapshots |
| `Reconcile.FailedIff` | internal/quota/reconcile.go:93-124 | a tenant fails exactly when its source, or reading or writing its history, failed |
| `Reconcile.HistoryGrowsBy` | internal/quota/reconcile.go:93-124 | its snapshot joins its history exactly when it was read and neither failed |
| `Reconcile.ReconcileOnce` | internal/quota/reconcile.go:93-124 | the round's counters, drift list, failures and appended history equal the per-tenant reference |
| `LeaseHorizon.HorizonCoversBudget` | internal/config/config.go:285-329 | for every accepted configuration with both bounds set, under 64-bit wrap-around the horizon is never below the budget |
| `LeaseHorizon.HorizonMeans` | internal/config/config.go:285-329 | the horizon is the configured one, else the request's two bounds and a minute cut at the largest duration, else a day |
| `LeaseHorizon.AcceptedIff` | internal/config/env.go:285-347 | loading refuses exactly a negative duration and a configured horizon the request's bounds could outlast |
| `LeaseHorizon.AddDurationSaturates` | internal/config/config.go:285-291 | the wrapped sum with its sign test is the saturating sum |
| `LeaseHorizon.LeaseOutlivesRequest` | internal/config/env.go:344-347 | in every run no sweep within the budget reclaims a request's lease |
| `LeaseHorizon.SweepReclaimsPastHorizon` | internal/quota/memory.go:200-227 | a visited live lease is reclaimed whole exactly when it is past the horizon |
| `RateLimiter.AdmissionWithinRate` | internal/limiter/memory.go:85-157 | over any interval what is admitted less what refunds really gave back, clamped at the capacity, stays within one full bucket plus the interval's refill, sweeps anywhere |
| `RateLimiter.SweepIsInvisible` | internal/limiter/memory.go:170-201 | over any run in which no call with a disabled ceiling meets a bucket a sweep could have taken, a sweeping limiter decides, waits included, like one that never sweeps |
| `RateLimiter.FixedCeilingsAreQuiet` | internal/limiter/memory.go:177-185 | ceilings never switched on or off, whatever their values, make every run such a run |
| `RateLimiter.NoisyCallShows` | internal/limiter/memory.go:144-157 | in any run a call with its ceiling disabled that meets an idle bucket holding anything but what the disabled ceiling creates makes a later call decide differently, swept or not |
| `RateLimiter.IdleSweepUnnoticedIff` | internal/limiter/memory.go:144-157 | the next call misses nothing exactly when its ceiling is on or the idle bucket held what a disabled ceiling creates |
| `RateLimiter.SweepShowsAcrossADisabledCeiling` | internal/limiter/memory.go:177-185 | from an empty limiter, spend, idle, call once with the ceiling off: a sweep there makes the next call refused, none makes it admitted |
| `RateLimiter.WaitCoversDeficit` | internal/limiter/memory.go:205-223 | the reported wait refills the deficit to within a nanosecond unless saturated |
| `RateLimiter.WaitingSuffices` | internal/limiter/memory.go:85-122 | a refused call a full bucket could pay for is admitted a nanosecond after the wait it was told, nothing asked between, unless the wait is saturated; it is told at least a millisecond, an admitted one nothing |
| `RateLimiter.WaitingLessDoesNot` | internal/limiter/memory.go:85-122 | told more than a millisecond, the same call one nanosecond before its time is refused again |
| `RateLimiter.SweepsOncePerHorizon` | internal/limiter/memory.go:159-175 | in a run with an ordered clock a call sweeps exactly when no call did within the last horizon |
| `RateLimiter.ArmedAhead` | internal/limiter/memory.go:165-175 | whatever the clock did before, a call leaves the next sweep due within a horizon |
| `RateLimiter.BucketsOfTwoHorizons` | internal/limiter/memory.go:90-94 | after every call of every run no bucket is left that was not touched within the last two horizons |
| `RateLimiter.TokenBuckets.Allow` | internal/limiter/memory.go:85-122 | in place equals the reference step |
| `RateLimiter.TokenBuckets.Refund` | internal/limiter/memory.go:126-135 | in place gives tokens back up to the capacity |
| `RateLimiter.TokenBuckets.SweepIfDue` | internal/limiter/memory.go:170-201 | the deletion loop keeps exactly the buckets touched after the cutoff, and only when due |
| `CredentialRing.PickServes` | internal/upstream/credential.go:70-92 | a pick is alive, unburned whenever one is, and fails exactly when none is alive |
| `CredentialRing.WalksBeforeRepeating` | internal/upstream/credential.go:61-92 | of two picks with nothing excluded, at most a walk apart, the later serves the same credential exactly when it is a whole walk of the live ones later |
| `CredentialRing.WalksIffNoSkip` | internal/upstream/credential.go:61-92 | picks with any exclusions, however many exclusion-free ones follow, repeat nothing before the ring has been walked once exactly when no pick after the first skips the credential that is due |
| `CredentialRing.ExclusionMovesIff` | internal/upstream/credential.go:70-92 | exclusions change a pick exactly when they name the credential that is due and not every live one |
| `CredentialRing.InterleavedPicksRepeat` | internal/upstream/credential.go:61-75 | with a second request's add and store between the first one's, one of three live credentials is served to two requests in a row |
| `CredentialRing.ExclusionRepeatsIff` | internal/upstream/credential.go:61-92 | with exclusions the next pick repeats the last exactly when every other live credential is excluded and this one is not, or is the only one alive |
| `CredentialRing.ExclusionRepeatsAtOnce` | internal/upstream/credential.go:61-66 | three live credentials, two excluded: the same one is served twice in a row; of four, the first comes again before the last two |
| `CredentialRing.RotationIsFresh` | internal/relay/executor.go:510-520 | more alive than distinct burned credentials means the next pick is unburned |
| `CredentialRing.RotatesIff` | internal/relay/executor.go:510-520 | the count test passes exactly when fresh credentials outnumber burned ones already retired |
| `CredentialRing.RetiredBurnHidesRotation` | internal/relay/executor.go:505-520 | with the burned one of two retired the test says no though the next pick is fresh |
| `CredentialRing.Ring.PickNext` | internal/upstream/credential.go:70-92 | the two scans around the ring equal the reference pick and move the cursor past it |
| `CredentialRing.Ring.Retire` | internal/upstream/credential.go:96-101 | retires one credential and reports whether this call did |
| `CredentialRing.Ring.CountAlive` | internal/upstream/credential.go:104-112 | the loop counts the live ones |
| `CredentialRing.Ring.Revive` | internal/upstream/credential.go:115-119 | revives every credential |
| `Rotation.QuietRotationIsLive` | cmd/breakwater/serve.go:582-623 | for every interleaving, once no hook or enable callback is pending for it, an enabled upstream with a ring has a live credential, whatever is pending for others |
| `Rotation.ChannelsStayApart` | internal/router/control.go:146-207 | manual and automatic disables never hold the same upstream |
| `Rotation.OnlyOperatorsLiftManual` | internal/router/control.go:146-207 | a manual disable lasts until an operator switches the upstream on |
| `Rotation.ChannelsMoveIff` | internal/router/control.go:146-207 | a switch by an operator moves both channels, a hook that gives up sets the automatic one unless the manual one is set, a recovery lifts the automatic one alone, and nothing else moves either |
| `Rotation.FlagsMoveIff` | internal/upstream/credential.go:96-119 | a credential's flag is set exactly by its retirement and cleared exactly by a revival that has come to it |
| `Rotation.HookDecidesBy` | cmd/breakwater/serve.go:582-606 | in every interleaving a hook gives up exactly when each flag of the ring, read once since its own retirement, was set as it was read, or when it had no credential to retire |
| `Rotation.CallbackClearsEveryFlag` | internal/upstream/credential.go:114-119 | an enable callback that ends has cleared every flag of its ring, each after it began |
| `Rotation.OneStepAhead` | cmd/breakwater/serve.go:582-623 | nothing in flight is ever stuck: exactly one step of a pending hook is possible, and exactly one of a pending callback |
| `Rotation.Switch.SetUpstream` | internal/router/control.go:146-166 | enabling clears both channels and owes the callback, disabling moves the upstream to the manual one, an unknown id changes nothing |
| `Rotation.Switch.AutoDisableUpstream` | internal/router/control.go:175-189 | only the first report disables, and never over a manual disable |
| `Rotation.Switch.AutoEnableUpstream` | internal/router/control.go:195-207 | lifts only the automatic disable and owes the callback; a manual disable stays |
| `FallbackPlan.Walk.TargetOf` | internal/relay/fallback.go:36-47 | for any resolver, asked about the current attempt or the one after it, repeatedly or early, attempt n gets the n-th target of all batches flattened, then the last one forever |
| `FallbackPlan.Walk.Advance` | internal/relay/fallback.go:54-75 | appends exactly the next batch of the whole plan, beginning at the attempt, or reports the chain drained |
| `FallbackPlan.PlanIs` | internal/relay/fallback.go:54-75 | the whole plan is the job's own batch, then, when there is a resolver, in chain order a batch for each name that is not the job's model, was not mentioned before and resolved when asked |
| `FallbackPlan.ServedInOrder` | internal/relay/fallback.go:36-47 | the batch's candidate at an offset serves the attempt numbered by all candidates of the batches before it plus that offset |
| `FallbackPlan.ServedPastTheEnd` | internal/relay/fallback.go:36-47 | every attempt past the last candidate of the plan is served by that candidate |
| `FallbackPlan.RestEntersNoneTwice` | internal/relay/fallback.go:58-74 | no model is entered twice, none already tried, none without candidates |
| `FallbackPlan.FirstMentionDecides` | internal/relay/fallback.go:58-74 | a fallback's first mention alone decides whether and with what it serves |
| `Relay.Execute` | internal/relay/executor.go:363-387 | another attempt follows exactly while the last was saturated, denied, lost with the client there, cut before a byte, or answered 429, 5xx or a fatal reply with a credential alive, contexts run, the count is below the cap and the budget admits; one header is written unless the request fails uncommitted with the client gone; the result is a function of the last attempt's world |
| `Relay.GoesOnIff` | internal/retry/loop.go:64-140 | that condition for one attempt, the retryability table included |
| `Relay.OutcomeMeans` | internal/relay/executor.go:524-615 | the status, upstream, code and flags the client is told, by the last attempt's world |
| `Relay.BurnedIff` | internal/relay/exchange.go:265-316 | a credential is burned at an upstream exactly when this request has seen it answer a fatal error or 429 there |
| `Relay.Run.AttemptLoop` | internal/retry/loop.go:64-140 | the loop ends where the reference does, having attempted the flattened targets in order and waited for exactly the hints the rule leaves |
| `Relay.Run.Finish` | internal/relay/executor.go:524-615 | the branch order over accumulated state renders what the last attempt's world alone decides |
| `Relay.Run.Attempt` | internal/relay/executor.go:420-503 | one attempt with its look-ahead files its outcome, burns credentials and clears the hint exactly when the retry moves on |
| `Relay.Run.Exchange` | internal/relay/exchange.go:34-250 | every reply maps to its error, and a header is written exactly when a stream commits |
| `Relay.Run.StashUpstreamError` | internal/relay/exchange.go:265-300 | an error reply is kept for a passthrough or is terminal at once, and convicts its credential on fatal or rate-limited replies |
| `Relay.Run.ExcludeCredential` | internal/relay/exchange.go:306-316 | a credential joins the burned list once |
| `Relay.NothingFollowsACommit` | internal/retry/loop.go:92-109 | no attempt follows one that delivered, committed a byte or filed a terminal reply |
| `Relay.DroppedHintMeansFresh` | internal/relay/executor.go:487-501 | a dropped Retry-After (section 10.2.3 of RFC 9110) leads to another upstream, or on an unchanged ring to a live credential this request never convicted |
| `Relay.WaitsIff` | internal/relay/executor.go:496-501 | a hint is waited for exactly when the same upstream is next and nothing is burned there or fresh credentials do not outnumber retired burned ones |
| `Relay.BurnedOnce` | internal/relay/exchange.go:306-316 | the burned list holds no credential twice |
| `RetryBudget.CounterIsExact` | internal/retry/loop.go:64-110 | in every interleaving the counter equals the retry attempts running, never exceeds a fixed cap, and no request passes max(1, MaxAttempts) attempts |
| `RetryBudget.AllSlotsReturn` | internal/retry/loop.go:73-86 | with nobody attempting the counter is zero, panics included |
| `RetryBudget.ReleasesAreMatched` | internal/retry/retry.go:131-139 | a release is never absorbed |
| `RetryBudget.RefusedOnlyWhenFull` | internal/retry/retry.go:121-129 | a retry is refused exactly when a cap's worth are running, and an admitted one fits |
| `RetryBudget.ShareIsAPercentage` | internal/retry/retry.go:108-116 | a count fits a share exactly up to the floor or while within the percentage of live traffic, a static cap exactly up to it |
| `RetryBudget.Budget.Acquire` | internal/retry/retry.go:121-129 | admits exactly below the cap |
| `RetryBudget.Budget.Release` | internal/retry/retry.go:133-139 | gives one slot back, never below zero |
| `RetryBudget.CeilingNeverWraps` | internal/retry/loop.go:180-205 | the shifted ceiling is the initial backoff doubled for each attempt after the first, sixteen times at most, cut at the int64 and configured maxima, and the configured maximum when there is no initial backoff |
| `RetryBudget.CeilingDoubles` | internal/retry/loop.go:174-205 | the next ceiling is at least this one and at most twice it |
| `Tiers.MergedAdmitsIff` | internal/auth/limits.go:76-110 | the merged tier admits a model, the wildcard included, exactly when the base does and every layer neither denies it nor has a list omitting it |
| `Tiers.NoLayerWidens` | internal/auth/limits.go:22-26 | no layer, wherever put, admits what was refused without it |
| `Tiers.OrderDoesNotDecide` | internal/auth/limits.go:72-110 | the decision does not depend on the order of the layers |
| `Tiers.NearestLimitWins` | internal/auth/limits.go:82-97 | the last layer that sets a numeric limit wins |
| `Tiers.NearestQuotaWins` | internal/auth/limits.go:102-107 | the last layer naming a model's quota wins |
| `Tiers.IntersectNamesBoth` | internal/auth/limits.go:112-156 | a tightened list names exactly what parent and child both name |
| `Tiers.TighteningKeepsOrder` | internal/auth/limits.go:112-156 | a list tightened by itself or by a wildcard is as it was, the bare wildcard yields to a list that names nothing twice, and no entry is ever doubled |
| `Tiers.IntersectLists` | internal/auth/limits.go:116-156 | the loops produce the parent's order first, then the child's new entries under the parent's wildcard |
| `Tiers.MergeTier` | internal/auth/limits.go:76-110 | the loop over layers equals the fold, in any map order |
| `Tiers.AllowsModel` | internal/auth/auth.go:91-103 | the two scans decide deny first, then allow |

## Left out

- Affinity.Pick: the whole index (a map of tries) is modelled on values; update in place is shown for one trie, not across tries.
- `chunkHashes`: a chain of hashes is given; how a prompt is cut and hashed is not modelled, and collisions are equal hashes.
- Registries: one breaker, guard or ring is modelled, not the map from upstream id to it; a lock-protected call is one step.
- Breakers read the clock once per call here; the source may read it twice within one locked call.
- Governor.GrantsNeverRepeat: a grant's pointer identity is a serial number.
- QuotaLedger.LedgerConserves: balances are unbounded integers; `QuotaLedger.BalanceNeverExceedsGrant` bounds them by what was granted, so they fit when that does. Amounts are non-negative and lease ids fresh by assumption.
- RateLimiter.SweepIsInvisible: rules out a tenant's first call under a ceiling below zero too, which leaves a bucket in debt; that a later call can tell is proved for idle buckets only. Token amounts are whole.
- RateLimiter.AdmissionWithinRate: `float64` is `real`, so rounding is not modelled; the clock does not step back within a run.
- RatioBreaker.DenyChanceBelowOne: draws are arbitrary, so nothing is said about probabilities.
- FrequencySketch.Sketch.Estimate: how often collisions and the doorkeeper's false positives raise an estimate is statistical; without them it is exact (`FrequencySketch.OwnSlotIsExact`).
- Singleflight.EveryoneGetsTheFlightsResult: the waiter counter used by tests is not modelled, nor which context a fetch runs under.
- ResponseCache.Cache.Set: the admission frequency is an arbitrary function here; the sketch is proved on its own.
- Rotation.QuietRotationIsLive: the hook's second liveness scan, used for logging only, and reports about unknown upstreams are left out.
- CredentialRing.Ring.PickNext: the cursor is an unbounded natural, and its atomic add and store are one step; with other picks in between the walk it promises fails (`CredentialRing.InterleavedPicksRepeat`), and nothing more is proved of interleaved picks.
- CredentialRing.WalksBeforeRepeating: holds for a ring unchanged during the walk.
- Relay.Execute: breaker reports, the routing observer, traces, usage and byte counts are left out; a reply is an abstract outcome and a stream's bytes are not modelled. A panic inside an attempt is modelled in `RetryBudget` only.
- Relay.DroppedHintMeansFresh: holds for a ring unchanged until the next pick; a retirement or revival in between is not constrained.
- Relay.Run.Finish: the fields a request accumulates for its end are one record here.
- Relay.Run.AttemptLoop: only the standard retryability table is modelled, not an injected classifier.
- FallbackPlan.Walk.Advance: an error and an empty answer of the resolver are one refusal.
- RetryBudget.ShareIsAPercentage: the product of percentage and traffic is taken without 64-bit wrap-around.
- `ParseRetryAfter`: header text parsing is not modelled; a hint is a natural number.
- `SetModel`, `View`, `AutoDisabledIDs`: plain reads and writes of the switch.
- Redis and PostgreSQL backends, HTTP handlers, JSON, SSE framing, metrics, logging, configuration parsing and latency scoring: I/O, or easy beside the rest.
