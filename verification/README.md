# whymiss in Dafny

whymiss collects timestamped facts about an Ethereum slot and decides which layer cost a validator
its duty. This project models the parts of it whose correctness is hard to see by reading one
function, and proves what they promise for every input, run or reachable state.

| module | what it models |
|---|---|
| `RateLimiter` | the FIFO rate limiter of the beacon client as a step system over all interleavings, and its critical sections as methods of an object |
| `FlightCache` | the five single-flight caches of the beacon client as one protocol with parameters, and the code that mutates the maps |
| `Bits`, `Attestations`, `Inclusion` | SSZ Bitlists, EIP-7549 aggregates, the lazy committee lookup, the inclusion scan |
| `Domain` | slots, observations, samples, timelines and `Timeline.Validate` |
| `LatencyStages`, `Verdicts`, `Rules`, `RuleLoops` | the stage decomposition, verdict validity, the thirteen rules and the loops behind them |
| `Facts`, `Readings` | what a timeline says, record by record, and that the rules' lookups and stages agree |
| `Engine`, `ClockTrustTheorems`, `AnalyzeTheorems` | `Analyze`, clock trust, verdict validity |
| `Blame`, `Citations`, `BuiltBlame` | exactly when each cause is named, and what it is cited with |
| `Text`, `Sorting`, `RecordOrder`, `Assembly`, `AssemblyTheorems` | the deterministic assembler |
| `DutySelection` | choosing one validator's duty, and isolation up to the verdict |
| `Ntp`, `Backoff` | NTP timestamps, the offset arithmetic, the wrapping backoff shifts |
| `Retention`, `TimeLayout` | pruning of the two tables, and why text order of timestamps is time order |
| `EngineWindows` | Engine counter windows and the 64-slot dedupe set |

How the source's terms are carried over:

- Instants are integers of nanoseconds; in `Domain` 0 is Go's zero time. `time.Time.Sub` saturates as in
  Go, int64 sums wrap, uint64 slots wrap.
- Floating-point values are reals. Texts that hold a float are read through `pf`, an arbitrary parser:
  what is proved holds for every parser.
- Strings are byte sequences ordered as Go orders them.
- Goroutines are step systems: every critical section is one step, and steps interleave in any order.
  Fetch results, cancellations, timers and the clock are arbitrary steps.
- The iteration order of a Go map is a parameter, so a result that depends on it is visible.

## What was found

Properties that turned out false are stated with the exact condition under which they hold, and with an
input or a run on which they fail.

- `safeFallback` is documented as valid by inspection (internal/rca/engine.go:117-119), but the only way
  to enter it is an attester's inclusion that earned no flag, and its own verdict is then refused by
  `Verdict.Validate` (`AnalyzeValidIff`, `FallbackIsReachable`).
- The assembler promises the same timeline for every arrival order (internal/timeline/assembler.go:70-77).
  Its reorg list depends on map iteration order exactly when two reorgs of the inclusion window agree on
  every compared field and come from different slots (`ReorgsDeterministicIff`, `TieOnRealCalls`).
- The dominant stage depends on scan order exactly when two stages share the greatest share at or above the
  bar (`OrderFreeIff`). At the default of one half that is two stages of exactly half each (`HalfTiedIff`,
  `HalfCanTie`); above one half it needs a sum of stages beyond the int64 maximum (`TieAboveHalfSaturates`).
- A grant of the rate limiter is spent on a waiter that gave up exactly when the waiter gives up between a
  runner's last check of it and that runner's grant (`WastedIff`, `GrantMayBeWasted`).
- A key of a cache stays single-flight throughout a run exactly when no caller replaces its in-flight entry
  by asking with another count (`SingleFlightIff`), so the committee cache is single-flight for callers that
  agree (`AgreeingCallersFetchOnce`) and not otherwise (`CommitteeCacheCanFetchTwice`). Answers stay correct
  either way (`AnswersAreSound`).
- A caller whose own context is live is answered with a cancellation exactly when the fetch it waits on
  belongs to another caller and ends in that caller's cancellation (`BorrowedCancellationIff`,
  `WaiterGetsCancellation`).
- A duty is answered from another committee's bits exactly when its position is past its committee's real
  end, its own length does not catch that, and the index still falls inside the aggregate (`MisreadIff`). The
  client accepts such duties when the duties endpoint reports a longer committee than the committees endpoint
  (`AcceptedDutyMisread`); it never happens when the duty's length is not the larger one
  (`AgreedLengthNeverMisread`).
- An accepted NTP reading is accurate exactly when both server stamps lie within half an era (2^31 seconds) of
  the local receive time (`AccurateIff`). A server one whole era ahead is accepted and its offset read as
  -1 ns (`EraAheadIsAccepted`).
- Records attributed to other validators leave a selection unchanged except exactly where a completion marker
  without a validator comes first among the unreadable records and others have duties too
  (`OthersDoNotMatterIff`): alone in the slot, the validator is then judged by that marker.
- A repeated head is processed again exactly when 64 larger slots were received (`DuplicateIff`): heads 0 to 64
  and then 0 do it, heads 0 to 63 and then 0 do not (`RepeatAfter`).

`Timeline.Validate` does not order samples, so for an arbitrary valid timeline the readings the rules go by are
the last ones listed. Every timeline the program analyses comes from the assembler, where they are the newest
(`BuiltBlameIsNewest`).

## Model

| member | source | states |
|---|---|---|
| RateLimiter.StepKeeps | internal/source/beaconapi/client.go:242-308 | every step keeps the invariant: at most one live runner, `running` exact, a non-empty queue has a runner, the head seen before the sleep is still the head at the grant, FIFO, spacing, nobody lost |
| RateLimiter.RunKeeps | internal/source/beaconapi/client.go:242-308 | the invariant holds after every interleaving of waiters, cancellations, timers and runner steps |
| RateLimiter.DropCancelledKeeps | internal/source/beaconapi/client.go:271-274 | dropping cancelled heads removes exactly a prefix of cancelled waiters and stops at a live head |
| RateLimiter.GrantsOfAnyRun | internal/source/beaconapi/client.go:218-308 | in every run grants follow arrival order, no waiter is granted twice, and n grants take at least n-1 intervals across runner restarts |
| RateLimiter.SpacingAccumulates | internal/source/beaconapi/client.go:302-306 | pairwise spacing of neighbours gives (j-i) intervals between any two grants |
| RateLimiter.RecheckFailsOnlyOnCancel | internal/source/beaconapi/client.go:297-301 | in every reachable state the re-check after the sleep fails only on cancellation; its two other tests are dead |
| RateLimiter.StepMeasure | internal/source/beaconapi/client.go:268-308 | every runner step decreases the measure (queue length, progress on the head); only an arrival increases it |
| RateLimiter.RunnerStepsBounded | internal/source/beaconapi/client.go:268-308 | without new arrivals a runner takes at most 7 steps per queued waiter plus 6 |
| RateLimiter.RunnerNeverStuck | internal/source/beaconapi/client.go:268-308 | a live runner has an enabled step once the clock reaches the next permitted instant |
| RateLimiter.QueueDrains | internal/source/beaconapi/client.go:268-308 | from every reachable state a run of runner steps and clock ticks alone empties the queue and grants every queued waiter that is not cancelled |
| RateLimiter.GrantMayBeWasted | internal/source/beaconapi/client.go:253-265 | a run in which `ready` closes for a waiter that already returned its context error |
| RateLimiter.WastedIff | internal/source/beaconapi/client.go:253-306 | in every run a waiter is both granted and gone exactly when it gave up between a runner's last check of it and that runner's grant |
| RateLimiter.UndisturbedWastesNothing | internal/source/beaconapi/client.go:297-306 | a run in which no cancellation lands between last check and grant wastes no grant |
| RateLimiter.Limiter.constructor | internal/source/beaconapi/client.go:234-236 | an empty queue, no runner, the given interval |
| RateLimiter.Limiter.EnterSection | internal/source/beaconapi/client.go:242-252 | the fields change as the Enter step changes the state; a runner is started exactly when none was live |
| RateLimiter.Limiter.TopSection | internal/source/beaconapi/client.go:270-287 | the loop over cancelled heads and the exit, sleep or grant decision are those of the Top step |
| RateLimiter.Limiter.RecheckSection | internal/source/beaconapi/client.go:297-301 | grants exactly when the Recheck step does, changing nothing |
| RateLimiter.Limiter.CommitSection | internal/source/beaconapi/client.go:302-306 | dequeues the head and sets the next permitted instant as the Commit step does |
| FlightCache.StepKeeps | internal/source/beaconapi/blocks.go:46-89 | every step of every cache keeps the whole invariant: map well formed, errors dropped, calls sound, one fetcher per entry, bounds, and in the untagged caches in-flight entries mapped |
| FlightCache.RunKeeps | internal/source/beaconapi/blocks.go:46-89 | the invariant holds in every reachable state of every cache |
| FlightCache.TrimExactly | internal/source/beaconapi/blocks.go:210-224 | trimming removes only completed entries, lowest slots first, no more than needed, and stops only within the limit or with everything left in flight |
| FlightCache.AnswersAreSound | internal/source/beaconapi/attestation_bits.go:162-204 | every answer in every run was fetched for the caller's own slot and count, validated, final, and in flight or younger than one TTL at lookup |
| FlightCache.CacheStaysBounded | internal/source/beaconapi/blocks.go:46-89 | in every run the map stays within the fetch limit and the number of completed entries within the trim target, no error is retained, and in the untagged caches an in-flight entry stays mapped until its own fetch ends |
| FlightCache.CompleteStaysFinal | internal/source/beaconapi/blocks.go:46-89 | once complete, an entry's fields never change in any run, so a waiter reading without the lock reads final fields |
| FlightCache.BorrowedCancellationIff | internal/source/beaconapi/blocks.go:49-87 | in every run a caller is answered with a cancellation not its own exactly when the fetch it waited on belonged to another caller and ended in that caller's cancellation |
| FlightCache.WaiterGetsCancellation | internal/source/beaconapi/blocks.go:49-87 | a run of the block cache in which that happens |
| FlightCache.OneFetcherEver | internal/source/beaconapi/blocks.go:71-88 | over a whole run each entry is fetched by one caller |
| FlightCache.FailureRemovesOnlyItself | internal/source/beaconapi/attestation_bits.go:192-202 | in every reachable state a failing fetch unmaps its own entry and no other; a superseded fetch leaves its replacement |
| FlightCache.UnguardedDeleteIsSafe | internal/source/beaconapi/canonical_roots.go:54-64 | the unconditional delete on error equals a delete guarded by entry identity in every reachable state of the untagged caches |
| FlightCache.SingleFlight | internal/source/beaconapi/heads.go:69-101 | two cached fetches of one slot are never in flight together in the untagged caches |
| FlightCache.SingleFlightIff | internal/source/beaconapi/attestation_bits.go:162-204 | in every run of every cache a key stays single-flight throughout exactly when no caller replaces an in-flight entry of it by asking with another tag |
| FlightCache.AskBreaksIff | internal/source/beaconapi/attestation_bits.go:165-180 | from a single-flight state a lookup breaks single flight exactly when it misses, its fetch is cached and a cached fetch of the key has not ended |
| FlightCache.AskBreaksBySuperseding | internal/source/beaconapi/attestation_bits.go:165-180 | while every flight of the key is mapped, that is exactly when the mapped entry is in flight with another tag |
| FlightCache.SupersededFetchLingers | internal/source/beaconapi/attestation_bits.go:162-204 | a run after which a lookup breaks single flight although the mapped entry is complete: the superseded fetch is still running |
| FlightCache.AgreeingCallersShareFlight | internal/source/beaconapi/attestation_bits.go:162-204 | if all lookups of a key in a run carry one tag, the key is single-flight throughout, the committee cache included |
| FlightCache.AgreeingCallersFetchOnce | internal/source/beaconapi/attestation_bits.go:162-204 | and no two callers are then fetching it at once |
| FlightCache.SingleForCalls | internal/source/beaconapi/attestation_bits.go:178-204 | single flight of entries is single flight of requests |
| FlightCache.FlightsHaveFetchers | internal/source/beaconapi/attestation_bits.go:178-204 | in every reachable state an entry in flight has a caller fetching it |
| FlightCache.CommitteeCacheCanFetchTwice | internal/source/beaconapi/attestation_bits.go:162-180 | a run in which alternating counts put two fetches of one slot and count in flight |
| FlightCache.AskReusesIff | internal/source/beaconapi/attestation_bits.go:162-190 | a caller joins the mapped entry exactly when that was asked for with its own count and is in flight or younger than the TTL; otherwise it fetches into a new entry, mapped exactly while fewer other keys are mapped than the fetch limit, and no other key is touched |
| FlightCache.CompletedLeavesIff | internal/source/beaconapi/blocks.go:46-89 | a completed entry leaves the map exactly by being replaced by a caller it does not serve or by being trimmed away with more entries mapped than the cache keeps |
| FlightCache.AnswerIsReused | internal/source/beaconapi/attestation_bits.go:162-204 | in every run a completed answer that is neither replaced nor trimmed away serves every caller with its count exactly as long as it is younger than the TTL, without another fetch |
| FlightCache.SuccessIsCached | internal/source/beaconapi/blocks.go:70-89 | a cached fetch that succeeds fills its entry with that outcome and stays mapped unless more entries are mapped than the cache keeps |
| FlightCache.Cache.AskSection | internal/source/beaconapi/blocks.go:46-68 | the lookup section waits on, replaces or bypasses the map exactly as the Ask step |
| FlightCache.Cache.OldestComplete | internal/source/beaconapi/blocks.go:212-218 | the map scan finds the least completed slot, whatever order the map is walked in |
| FlightCache.Cache.TrimLocked | internal/source/beaconapi/blocks.go:210-224 | the deletion loop leaves exactly the trimmed map |
| FlightCache.Cache.FinishSection | internal/source/beaconapi/blocks.go:70-89 | filling the entry, deleting on error and trimming on success are those of the Finish step |
| Bits.BitlistLengthLoop | internal/source/beaconapi/bitlist.go:36-46 | the backward scan computes the length function |
| Bits.LengthIsHighestBit | internal/source/beaconapi/bitlist.go:33-46 | the length is the position of the highest set bit of the whole byte string |
| Bits.BitSetSteps | internal/source/beaconapi/bitlist.go:25-30 | the byte and mask lookup reads the bit, or reports an index past the length |
| Bits.BitlistRoundTrip | internal/source/beaconapi/bitlist.go:11-46 | every bit list decodes from its SSZ encoding to its own length and bits, and to an error past its end |
| Bits.BitlistReencodes | internal/source/beaconapi/bitlist.go:11-46 | every byte string whose last byte carries the sentinel is the encoding of the bits read out of it |
| Bits.IndicesAre | internal/source/beaconapi/attestation_bits.go:108-113 | the index list is ascending and holds exactly the set positions |
| Bits.BitvectorIndices | internal/source/beaconapi/attestation_bits.go:96-118 | the loop returns that list, or an error exactly for a wrong byte count or no bit set |
| Bits.BitvectorRoundTrip | internal/source/beaconapi/attestation_bits.go:96-118 | the bit vector of an ascending committee list reads back as that list |
| Attestations.FindPosition | internal/source/beaconapi/attestation_bits.go:61-67 | the loop finds the first position of the committee |
| Attestations.AccumulateOffset | internal/source/beaconapi/attestation_bits.go:75-85 | the offset loop computes the sum of lengths or the first fault |
| Attestations.AttestationIncludesValidator | internal/source/beaconapi/attestation_bits.go:46-94 | the method returns the answer the lemmas below are about, branch by branch |
| Attestations.AnswerExactly | internal/source/beaconapi/attestation_bits.go:46-94 | every attestation, well made or not: which fault, "not included", "lengths needed" or bit it is answered with, in the order of the checks |
| Attestations.AggregateReadsOwnBit | internal/source/beaconapi/attestation_bits.go:46-94 | decoding an aggregate with the right lengths returns exactly the validator's own bit, and "not included" for a committee not set |
| Attestations.OneCommitteeReadsOwnBit | internal/source/beaconapi/attestation_bits.go:47-53 | before EIP-7549: the own bit of the matching committee, an error past its end |
| Attestations.PositionOutsideIsRefused | internal/source/beaconapi/attestation_bits.go:86-88 | with its committee length a duty is never answered from another committee's bits |
| Attestations.MisreadIff | internal/source/beaconapi/attestation_bits.go:75-93 | for every duty of a covered committee, another committee's bit is looked at exactly when the position is past the own committee's end, uncaught by the duty's length, and the wrapped index is inside the concatenation |
| Attestations.MisreadAnswer | internal/source/beaconapi/attestation_bits.go:86-93 | the answer is then that committee's vote |
| Attestations.AgreedLengthNeverMisread | internal/source/beaconapi/duties.go:95-97 | a duty the client accepts, with a length not above the one the committees endpoint reports, is never misread |
| Attestations.AcceptedDutyMisread | internal/source/beaconapi/duties.go:95-109 | a duty the client accepts that is reported included on its neighbour's vote |
| Attestations.NeverOverflows | internal/source/beaconapi/attestation_bits.go:81-83 | the offset-overflow branch is unreachable, whatever the lengths claim |
| Attestations.OffsetIsConcatLength | internal/source/beaconapi/attestation_bits.go:75-85 | the accumulated offset is the length of the concatenation before the committee |
| Inclusion.AttestationsIncludeValidator | internal/source/beaconapi/attestation_bits.go:32-44 | the loop stops at the first attestation of the wanted slot whose answer is not "not included", every earlier one being of another slot or not including the validator, and finds nothing exactly when all are |
| Inclusion.SearchIff | internal/source/beaconapi/attestation_bits.go:32-44 | that result is unique: the search function gives it and nothing else |
| Inclusion.LazyIsEager | internal/source/beaconapi/attestation_bits.go:32-94 | whatever first answer a pass without lengths gives, unless it asks for lengths, is the first answer with any lengths; with lengths none are asked for |
| Inclusion.SearchWithLengths | internal/source/beaconapi/attestation_bits.go:32-94 | for every list, a pass without lengths that does not ask for them gives the answer, match and error of the pass with them |
| Inclusion.PoolIncludesAttestation | internal/source/beaconapi/attestations.go:99-109 | with lengths to be had it gives the first answer of one eager pass; without them it fails exactly when the first answer asks for them |
| Inclusion.CheckInclusion | internal/source/beaconapi/blocks.go:524-581 | the scan stops at the earliest block of the window with any answer but "not included" about an attestation of the wanted slot: included there by every possible lengths, or failed because of the fetch, an undecodable attestation or lengths not to be had; "never" only if every block is silent |
| Inclusion.BlockIncludesIff | internal/source/beaconapi/attestation_bits.go:32-94 | in a block of well-made aggregates (anything in other slots) the search stops exactly when an attestation of the wanted slot carries the validator's own bit, on such a one, with the answer "included" |
| Inclusion.WindowClearIff | internal/source/beaconapi/blocks.go:524-581 | over a window of such blocks the scan runs clear up to a slot exactly when no attestation of the wanted slot in them carries the validator's own bit |
| Inclusion.FetchCanonicalRootAtSlot | internal/source/beaconapi/canonical_roots.go:67-82 | the nearest block at or below the slot, within 64 slots and not below slot 0, decides |
| Domain.InclusionWindow | internal/domain/slot.go:26-35 | the EIP-7045 window ends with the next epoch, cut off at the last slot; nothing wraps and the distance is at most 63 |
| Domain.CollectionWindowEndIs | internal/domain/slot.go:43-49 | the window end is the start of the slot after the last inclusion slot; the oversize guard never fires |
| Domain.ValidateAttr | internal/domain/observation.go:329-391 | accepts exactly the values valid under the key |
| Domain.ValidateObservation | internal/domain/observation.go:302-346 | accepts exactly the valid observations, whatever order the attributes are walked in |
| Domain.ScanObservations | internal/domain/timeline.go:104-121 | one pass comparing neighbours accepts exactly ascending valid observations of the slot and counts completion markers |
| Domain.ScanReorgs | internal/domain/timeline.go:147-161 | the reorg pass accepts exactly valid ascending reorgs of the window |
| Domain.Validate | internal/domain/timeline.go:83-171 | accepts exactly the valid timelines |
| LatencyStages.TotalLoop | internal/rca/rules/stages.go:22-41 | the loop computes the total function |
| LatencyStages.TotalIsSum | internal/rca/rules/stages.go:22-41 | for non-negative stages the total is the sum, saturated at the int64 maximum |
| LatencyStages.SharesSumToOne | internal/rca/rules/stages.go:44-68 | shares of a positive total that does not saturate sum to one and none is negative |
| LatencyStages.DominantLoop | internal/rca/rules/stages.go:72-103 | the scan computes the dominance function |
| LatencyStages.DominantMeaning | internal/rca/rules/stages.go:72-103 | answers exactly when two stages are known and one reaches the bar, and then with a greatest share |
| LatencyStages.DominantIgnoresOrder | internal/rca/rules/stages.go:72-103 | above one half, while the total does not saturate, only one stage can reach the bar and the scan order is irrelevant |
| LatencyStages.OrderFreeIff | internal/rca/rules/stages.go:72-103 | for every dominance and all stages, every scan order gives the same answer exactly when no two stages share the greatest share at or above the bar |
| LatencyStages.HalfTiedIff | internal/rca/rules/stages.go:72-103 | at the default of one half a tie is exactly two stages of half the total each |
| LatencyStages.TieAboveHalfSaturates | internal/rca/rules/stages.go:22-103 | above one half stages tie only when their sum exceeds the int64 maximum |
| LatencyStages.HalfCanTie | internal/rca/rules/stages.go:72-103 | at one half an exact tie is decided by scan order |
| LatencyStages.StagesTelescope | internal/rca/rules/stages.go:108-136 | known stages are non-negative and total the last known boundary minus the slot start, through every saturation (which stages those are: `Facts.StagesAre`) |
| Facts.StagesAre | internal/rca/rules/stages.go:108-136 | each stage on its own, from the observations, known exactly when they give it: propagation is the earliest client-timed arrival, not before the slot, minus the slot start; validation the earliest head minus that arrival, or without any head the earliest publication minus it; signing the earliest publication minus that head |
| Facts.TotalIsExactly | internal/rca/rules/stages.go:22-41 | the total is the sum of those durations, cut off at the int64 maximum |
| Facts.DominatesIff | internal/rca/rules/stages.go:72-103 | a stage is dominant exactly when by those durations it is one of at least two known, reaches the share, is exceeded by none and took longer than every earlier one |
| Facts.FirstIsEarliest | internal/domain/timeline.go:177-184 | in an ascending timeline the first observation of a kind is the earliest |
| Facts.LastIsLatest | internal/domain/timeline.go:187-194 | in an ascending timeline the last observation of a kind is the latest |
| Facts.TimedIsEarliest | internal/rca/rules/helpers.go:35-42 | in an ascending timeline the client-timed arrival picked is the earliest one |
| Facts.LastIsLastListed | internal/domain/timeline.go:187-194 | no observation of the kind is listed after the one returned |
| Facts.FirstIsFirstListed | internal/domain/timeline.go:177-184 | none is listed before the one returned |
| RuleLoops.FindFirst | internal/domain/timeline.go:177-184 | the forward loop finds what the theorems call the first observation |
| Readings.GaugeFactIs | internal/rca/rules/helpers.go:144-197 | the host and peer lookups return the last readable observation, or without one the last sample, and nothing exactly when there is neither |
| Readings.ReadingIsNewest | internal/rca/rules/helpers.go:142-197 | on ascending lists that reading has no later one |
| Readings.ReadingIsGaugeFact | internal/rca/rules/helpers.go:144-197 | that reading is unique: whatever meets the description is what the lookups return |
| Readings.CompleteIsTwoWindows | internal/rca/rules/helpers.go:53-102 | complete calls are one readable newPayload and one readable forkchoiceUpdated window and no other, in the order listed, and their total is the sum of the two durations |
| Readings.TwoWindowsAreComplete | internal/rca/rules/helpers.go:53-102 | conversely, one readable window of each method and no other make the calls complete, with that total |
| Readings.SampleValueIsFreshest | internal/domain/timeline.go:245-260 | a sample of the metric that no other is fresher than, the first listed of those, or nothing exactly when there is none |
| RuleLoops.FindLast | internal/domain/timeline.go:187-194 | the backward loop finds what the theorems call the last observation |
| RuleLoops.FindSampleValue | internal/domain/timeline.go:245-260 | the freshest sample of the metric, the first listed among equals, or none exists |
| RuleLoops.FindTimedBlock | internal/rca/rules/helpers.go:35-42 | the loop finds the first client-timed arrival |
| RuleLoops.CollectEngineCalls | internal/rca/rules/helpers.go:53-85 | the loop collects every parseable Engine window in order |
| RuleLoops.CheckComplete | internal/rca/rules/helpers.go:87-102 | the two counters accept exactly one window per method |
| RuleLoops.SumEngineCalls | internal/rca/rules/helpers.go:130-140 | the loop adds every duration and saturates at the int64 maximum |
| RuleLoops.FindHostFact | internal/rca/rules/helpers.go:144-171 | the last readable observation of the metric listed, or without one the last live sample, or none exists |
| RuleLoops.FindPeerCount | internal/rca/rules/helpers.go:174-197 | the last readable peer count listed, or without one the last live sample, or none exists |
| RuleLoops.AppendCallEvidence | internal/rca/rules/r300_el_slow.go:45-58 | one measured item per Engine window, in order |
| RuleLoops.AppendReorgEvidence | internal/rca/rules/r500_inclusion_failure.go:57-64 | the reorgs of the slot, and every record of the window's list, in order |
| RuleLoops.RunRules | internal/rca/engine.go:48-80 | the rule loop returns the first match |
| RuleLoops.ValidateFlags | internal/domain/verdict.go:473-500 | accepts exactly the flags that fit the outcome |
| RuleLoops.ValidateVerdict | internal/domain/verdict.go:403-500 | accepts exactly the valid verdicts |
| Engine.OkIffNoLoss | internal/rca/outcome.go:18-56 | the outcome is ok exactly when `dutyHasObservableLoss` (internal/rca/rules/helpers.go:106-128) is false, on every duty |
| Engine.StampLoop | internal/rca/engine.go:106-108 | the in-place loop leaves every item as it was except for its offset, which becomes its distance from the slot start |
| Engine.Region | internal/rca/rules/order.go:13-29 | each of R-100, R-110, R-200, R-300, R-310, R-400, R-410 matches inside one cell of a partition of all timelines |
| Engine.RulesDisjoint | internal/rca/rules/helpers.go:22-42 | no timeline, valid or not, matches two of those seven rules |
| Engine.AnalyzeIgnoresBlockOrder | internal/rca/rules/order.go:13-29 | any reordering of R-110 .. R-410 leaves Analyze unchanged on every input |
| ClockTrustTheorems.ClockTrustLoop | internal/rca/rules/r011_clock_trust.go:26-105 | the three loops compute R-011 |
| ClockTrustTheorems.SampleKeyInjective | internal/rca/rules/r011_clock_trust.go:48-57 | two samples share a map key exactly when they are of the same metric |
| ClockTrustTheorems.LatestIsNewest | internal/rca/rules/r011_clock_trust.go:48-57 | the map built by the loop holds exactly the newest non-derived sample of each metric |
| ClockTrustTheorems.ClockTrustSilent | internal/rca/rules/r011_clock_trust.go:26-122 | R-011 is silent exactly when every observation of the ten clock-bearing kinds and every newest sample is measured, fresh and within the threshold |
| ClockTrustTheorems.ClockTrustSpeaks | internal/rca/rules/r011_clock_trust.go:84-140 | when it speaks it says insufficient data with low confidence or clock drift with high, with evidence fit to emit |
| AnalyzeTheorems.EveryDraftWellFormed | internal/rca/rules/order.go:13-29 | whichever rule matches, its draft names a cause and carries valid evidence |
| AnalyzeTheorems.SomethingMatches | internal/rca/engine.go:82-92 | the path after the rule loop is dead |
| AnalyzeTheorems.FlagsFitIff | internal/domain/verdict.go:473-500 | derived flags fail validation exactly when an included attestation earned none |
| AnalyzeTheorems.AnalyzeValidIff | internal/rca/engine.go:34-142 | on every valid timeline Analyze emits a valid verdict with the drafted cause, except exactly when no flag was earned; only then safeFallback is entered, and its verdict is invalid too |
| AnalyzeTheorems.FallbackIsReachable | internal/rca/engine.go:117-142 | a valid timeline on which the emitted verdict is invalid |
| AnalyzeTheorems.ClockSafety | internal/rca/rules/r010_data_completeness.go:16-46 | a network or local cause other than clock drift implies exactly one completion marker, not before the window closed for an attester, and a trusted clock throughout |
| Blame.CauseNamedIff | internal/rca/engine.go:34-142 | on every valid timeline Analyze names a cause with a confidence exactly when a duty was owed, the first rule in order to find anything on the records finds that cause with that confidence, and it is not the catch-all of a duty that lost nothing; a duty that earned no flag at all gets the safe fallback instead |
| Blame.ClearedIff | internal/rca/engine.go:56-80 | no cause is named exactly when no duty was owed, or nothing was lost and no rule but the catch-all finds anything |
| Blame.VerdictFrame | internal/rca/outcome.go:18-56 | every verdict on a valid timeline is of its slot, names no sub-cause, is of high confidence when it names no cause, places each piece of evidence by its distance from the slot start, and has the outcome and each reward flag the records give: source at a delay of at most five, target if marked correct, head at a delay of one with both marked correct |
| Blame.RuleFindsIff | internal/rca/rules/order.go:13-29 | on a valid timeline each of the thirteen rules finds a cause with a confidence exactly when the records say so; the next rows say what, rule by rule |
| Blame.CompletenessIff | internal/rca/rules/r010_data_completeness.go:16-46 | insufficient data: a duty without a completion marker, or the included attestation listed last lacks one of the two correctness attributes, whatever their value |
| Blame.ClockIff | internal/rca/rules/r011_clock_trust.go:26-140 | clock drift: every reading measured and fresh and some offset beyond the threshold; insufficient data: some reading unmeasured or stale |
| Blame.SkippedIff | internal/rca/rules/r100_proposer_missed.go:25-113 | an attester's slot confirmed skipped, no block seen, proposed or taken as head: network.proposer_missed if the attestation was included, insufficient data if it was neither included nor published |
| Blame.PayloadIff | internal/rca/rules/r120_payload_late.go:28-94 | network.payload_late: a payload deadline, no skip, reward lost, and the last committee report says absent on at least one vote; high confidence from two votes on |
| Blame.NetworkIff | internal/rca/rules/r110_network_late_block.go:16-80 | propagation beyond the attestation budget and dominant over whatever else is known: network.late_block if the network median is beyond it too and within the configured deviation, high confidence from ten samples on; insufficient data without a baseline |
| Blame.PeerIff | internal/rca/rules/r200_p2p_degraded.go:58-124 | local.p2p_degraded: the same at the client, the network median in time, and the peer count the rules go by below the minimum |
| Blame.ExecutionIff | internal/rca/rules/r300_el_slow.go:18-79 | local.el_slow: the earliest head after the deadline, validation dominant, exactly one newPayload and one forkchoiceUpdated window, together at least the truncated half of validation and more than the multiple of the freshest p99 baseline |
| Blame.ConsensusIff | internal/rca/rules/r310_cl_slow.go:17-74 | local.cl_slow: the same head and dominance, exactly one window of each method, together less than half of validation |
| Blame.DisconnectedIff | internal/rca/rules/r400_vc_disconnected.go:12-42 | local.vc_disconnected: a client-timed block and a head before the deadline, a completion marker, nothing published or included |
| Blame.SigningIff | internal/rca/rules/r410_vc_slow.go:20-54 | local.vc_slow: block and head before the deadline, the earliest publication after it, signing dominant |
| Blame.InclusionIff | internal/rca/rules/r500_inclusion_failure.go:17-74 | the first publication in time, a completion marker, never included: network.inclusion_failure if it votes for the first head's root, insufficient data if either root is unknown, nothing if they differ |
| Blame.HostIff | internal/rca/rules/r600_host_fallback.go:27-56 | reward lost: the first of disk IO, CPU steal and memory pressure whose reading is above its threshold |
| Blame.CatchAllIff | internal/rca/rules/r999_catch_all.go:29-100 | insufficient data if reward was lost and no stage is known, no rule matched otherwise |
| Blame.DriftIff | internal/rca/rules/r011_clock_trust.go:26-105 | clock drift is named exactly when every reading is measured and fresh and some offset is beyond the threshold |
| Citations.VerdictCites | internal/rca/engine.go:94-115 | every attribution on a valid timeline is cited with the instants, sources and figures of the very records it rests on: arrival and medians, the peer or host reading, the two windows and the baseline, validation's share, the largest clock offset, publication, marker, head and exactly the reorgs |
| Citations.ScanWorst | internal/rca/rules/r011_clock_trust.go:26-83 | the offset R-011 reports is the largest of all clock-bearing observations and newest samples, at the instant of its own clock sample |
| BuiltBlame.BuiltAscends | internal/timeline/assembler.go:78-129 | a built timeline is valid and its observations and samples ascend |
| BuiltBlame.BuiltBlameIsNewest | internal/timeline/assembler.go:94-95 | on every built timeline peer and host causes rest on the newest reading |
| Text.SortedKeysAscend | internal/timeline/assembler.go:199-203 | the keys are walked in ascending byte order |
| Text.NumeralsReadBack | internal/app/timeline.go:183-189 | both integer parsers read back every number written in decimal, signed or not, up to their own bounds, and refuse it beyond |
| RecordOrder.EncodeAttrsLoop | internal/timeline/assembler.go:195-210 | the loop over sorted keys builds the encoding |
| RecordOrder.EncodeAttrsInjective | internal/timeline/assembler.go:192-210 | different attribute maps never share an encoding |
| RecordOrder.ObservationOrder | internal/timeline/assembler.go:134-157 | the observation comparator is a strict weak order |
| RecordOrder.ObservationTie | internal/timeline/assembler.go:134-157 | two observations tie exactly when they agree on every field but the slot |
| RecordOrder.SampleOrder | internal/timeline/assembler.go:161-190 | the sample comparator is a strict weak order |
| RecordOrder.SampleTie | internal/timeline/assembler.go:161-190 | two samples tie only when they are the same sample |
| Assembly.Assembler.constructor | internal/timeline/assembler.go:36-43 | an empty assembler |
| Assembly.Assembler.SetNetwork | internal/timeline/assembler.go:46-48 | overwrites the slot's baseline and nothing else |
| Assembly.Assembler.AddObservation | internal/timeline/assembler.go:51-53 | appends to the observation's own slot and nothing else |
| Assembly.Assembler.AddSample | internal/timeline/assembler.go:59-61 | appends the sample and nothing else |
| Assembly.Assembler.SetDuty | internal/timeline/assembler.go:66-68 | overwrites the slot's duty and nothing else |
| Assembly.Assembler.CollectReorgs | internal/timeline/assembler.go:81-91 | the map walk collects exactly the window's reorgs, slot by slot in walk order |
| Assembly.Assembler.Build | internal/timeline/assembler.go:78-129 | returns the drafted timeline if it validates and an error otherwise, changing nothing |
| Assembly.RunWellFiled | internal/timeline/assembler.go:46-68 | after every run of calls each record sits under its own slot |
| AssemblyTheorems.ArrivalOrderIrrelevant | internal/timeline/assembler.go:78-190 | any rearrangement of the same additions, under any two map walks, builds the same timeline or refusal, provided no reorgs tie across slots |
| AssemblyTheorems.SameObservations | internal/timeline/assembler.go:79-80 | observations are the same for every arrival order, without that proviso |
| AssemblyTheorems.SameSamples | internal/timeline/assembler.go:94-95 | samples are the same for every arrival order |
| AssemblyTheorems.ReorgsDeterministicIff | internal/timeline/assembler.go:81-92 | the reorg list is the same for every map walk exactly when no two window reorgs tie across slots |
| AssemblyTheorems.TieOnRealCalls | internal/timeline/assembler.go:81-92 | two AddObservation calls after which two map walks build different reorg lists |
| AssemblyTheorems.BuildSucceedsIff | internal/timeline/assembler.go:114-128 | Build succeeds exactly when the records are acceptable one by one; sorting and filing already guarantee every other check |
| AssemblyTheorems.BuiltRecords | internal/timeline/assembler.go:78-96 | a built timeline's lists hold every record exactly as often as it was added: the slot's observations, the reorgs of the inclusion window, all samples, and nothing else |
| AssemblyTheorems.BuiltFrame | internal/timeline/assembler.go:97-128 | its slot, start and schedule are the given ones, its duty and baseline the last set for the slot, and it is complete exactly when a marker is among its observations |
| DutySelection.CollectAssigned | internal/app/timeline.go:108-118 | the first loop collects the validators with a duty, or reports an unreadable assignment |
| DutySelection.FilterLoop | internal/app/timeline.go:142-161 | the second loop computes the filter function |
| DutySelection.SelectDutyObservations | internal/app/timeline.go:107-166 | the three parts compute the selection function |
| DutySelection.ScopedIff | internal/app/timeline.go:168-177 | the kinds treated as duty-scoped are exactly those whose validated records may carry a validator index (internal/domain/observation.go:202-250) |
| DutySelection.SelectsExactly | internal/app/timeline.go:107-166 | for a requested validator, over validated records (internal/store/read.go:97-144): keeps exactly the records not attributed to another validator, in order; refuses exactly when an assignment is unreadable, the validator has none, or another record that should name a validator is unreadable (the first of them decides the error; a completion marker passes where nobody else has a duty) |
| DutySelection.SelectionAdmits | internal/app/timeline.go:148-160 | no selected record is attributed to another validator |
| DutySelection.NoDutyKeepsUnnamed | internal/app/timeline.go:125-166 | without a request and with nobody assigned, succeeds exactly when every record is readable, and keeps none that names a validator |
| DutySelection.SeveralDutiesAreRefused | internal/app/timeline.go:133-139 | without a request, several assigned validators are refused and all named |
| DutySelection.OthersDoNotMatterIff | internal/app/timeline.go:107-166 | removing every record attributed to another validator changes neither list, duty nor error, exactly unless a marker without a validator comes first among the unreadable records of a slot where others have duties too |
| DutySelection.AutoSelectsTheOnlyDuty | internal/app/timeline.go:128-132 | leaving the validator out is naming the only one with a duty |
| DutySelection.PlanMakes | internal/app/timeline.go:60-98 | what the assembler is given: the start of the first slot marker selected, the selected observations and with a duty the window's reorgs in order, the samples from that start, the baselines that decode, the duty |
| DutySelection.SameTimeline | internal/app/timeline.go:36-105 | under the same condition records attributed to other validators cannot change the built timeline |
| DutySelection.ValidatorsAreIsolated | internal/app/timeline.go:36-105 | nor the verdict |
| Ntp.NtpRoundTripIff | internal/clock/packet.go:57-85 | every instant is recovered to its exact second and to within 1 ns below exactly when the pivot fits, in particular for every pivot less than 2^31 seconds away, across any rollover |
| Ntp.RoundsToIff | internal/clock/packet.go:74-79 | when rounding to the nearest era gives the right era, ties included |
| Ntp.DecodingMonotone | internal/clock/packet.go:74-85 | where the pivot fits both instants, decoding keeps their order |
| Ntp.NewRequest | internal/clock/packet.go:34-39 | byte 0 is version 4 and client mode, bytes 40 to 47 are T1 in big-endian, every other byte is zero |
| Ntp.PutUint64 | internal/clock/packet.go:37 | writes the big-endian bytes of the value and nothing else |
| Ntp.PutBytes | internal/clock/packet.go:37 | the most significant byte comes first |
| Ntp.DecodedExactly | internal/clock/packet.go:57-85 | for every instant and pivot, decoding gives the instant less at most 1 ns, a whole number of eras off, within 2.2e9 seconds of the pivot |
| Ntp.ShiftIffPivot | internal/clock/packet.go:74-79 | no era off exactly when the pivot fits |
| Ntp.JudgedExactly | internal/clock/query.go:95-108 | for stamps that near t4 no saturation or wrap changes the judgement: acceptance, round trip and offset are those of the true differences |
| Ntp.AccurateIff | internal/clock/query.go:93-108 | for every exchange with non-negative path delays, an accepted reading (round trip at most one second and the path delays to within 1 ns, twice the offset error at most the round trip plus 1 ns above and plus 3 ns below) is accurate exactly when both stamps satisfy the pivot condition |
| Ntp.EraAheadIsAccepted | internal/clock/query.go:93-108 | a server one era ahead is accepted with an offset of -1 ns |
| Ntp.FittingDelay | internal/clock/query.go:95-104 | where the pivots fit, decoded stamps are in order and the measured delay is the path delays to within 1 ns |
| Ntp.HonestReplyAcceptedIff | internal/clock/query.go:68-108 | for every exchange, however far the clocks are apart, a trustworthy reply is accepted exactly when its decoded stamps are in order and the measured delay lies between 0 and one second |
| Ntp.BytesAcceptedIff | internal/clock/query.go:62-108 | a reply byte for byte (status in byte 0, stratum in byte 1, origin in 24 to 31, the server's two stamps in 32 to 47) is accepted exactly when it is synchronised, of stratum 1 to 15, version 3 or 4 and server mode, echoes the request's stamp, leaves neither stamp zero, and its stamps decode in order with a measured delay of at most a second |
| Ntp.ShortReadRefused | internal/clock/query.go:65-67 | fewer than 48 bytes are refused |
| Ntp.BytesOffsetError | internal/clock/query.go:62-108 | what is accepted off the wire is dated at its arrival, and accurate exactly when both pivots fit |
| Backoff.CeilingIsMin | internal/clock/backoff.go:23-31 | for every attempt the wrapping shift with its sign-and-cap test is min(base * 2^attempt, cap) |
| Backoff.BothCeilings | internal/source/beaconapi/backoff.go:22-30 | both backoffs exactly |
| Backoff.CeilingNeverDecreases | internal/clock/backoff.go:23-31 | the ceiling is positive, never decreases and never exceeds the cap |
| Retention.Store.DeleteOldestMatchingBatch | internal/store/retention.go:122-201 | removes exactly the first rows in (time, table, id) among those matching, and reports their number |
| Retention.Store.DeleteByAge | internal/store/retention.go:93-108 | removes exactly the rows before the cutoff, reports how many, terminates |
| Retention.Store.DeleteBySize | internal/store/retention.go:50-69 | stops at the first batch boundary that fits, or empties the store because no boundary fits; terminates for every size function |
| Retention.Store.TrimToFit | internal/store/retention.go:45-91 | the size pass and the final check on file size, each result with its exact reason |
| Retention.Store.Prune | internal/store/retention.go:24-91 | each result with what it leaves and the reason for it, error cases included |
| Retention.BatchComesFirst | internal/store/retention.go:145-165 | every row of a batch precedes every row left |
| Retention.BeforeIff | internal/store/retention.go:145-165 | the order is that of the texts: time, then table name, then id |
| Retention.BatchesCompose | internal/store/retention.go:50-69 | successive batches remove what one batch of their joint size would |
| Retention.PruneKeepsNewest | internal/store/retention.go:19-91 | what a prune leaves is upward closed in (time, table, id) |
| Retention.TextOrderIsTimeOrder | internal/store/retention.go:117-120 | for formatted instants both passes compare instants |
| TimeLayout.FormatOrder | internal/store/time.go:14 | for every two instants in years 0000 to 9999 byte order of the texts is time order, and equal texts mean equal instants |
| TimeLayout.FormatFields | internal/store/time.go:14 | the text of every instant in years 0000 to 9999 is its calendar date and its time of day, each field in full at its fixed width |
| TimeLayout.YearText | internal/store/time.go:14 | every year from 0000 to 9999 starts at the text of midnight of its first of January |
| TimeLayout.UnixEpoch | internal/store/time.go:14 | the calendar puts 1970-01-01 at instant 0 |
| EngineWindows.EngineCallsBetween | internal/source/promscrape/engine.go:69-94 | the loop computes the windows function |
| EngineWindows.WindowsIff | internal/source/promscrape/engine.go:69-94 | two snapshots give windows exactly when both are dated in order, both counts advanced and neither duration went back: newPayload then forkchoiceUpdated, each with its own differences, dated at the second snapshot |
| EngineWindows.EngineWindowTracker.AdvanceTo | internal/app/blocktiming.go:113-128 | remembers the new snapshot and answers from the old one |
| EngineWindows.EngineWindowTracker.Reset | internal/app/blocktiming.go:55-58 | a failed scrape starts afresh |
| EngineWindows.Replay | internal/app/blocktiming.go:54-68 | the object's outcomes over any run of events are those the lemmas are about |
| EngineWindows.EmittedIff | internal/app/blocktiming.go:103-128 | a window is emitted for slot s exactly when the event just before was a scrape at s - 1 and the two snapshots give those windows |
| EngineWindows.AmbiguousIff | internal/app/blocktiming.go:103-128 | the slot is given up as ambiguous exactly when there was such a scrape and the snapshots give none |
| EngineWindows.WindowsAddUp | internal/app/blocktiming.go:103-128 | over any stretch of emitting slots, counts and durations add up exactly to the last snapshot minus the first |
| EngineWindows.Receive | internal/app/blocktiming.go:31-43 | a head already in the set is a duplicate and changes nothing; any other is added, and the least slot goes when more than 64 are held |
| EngineWindows.Oldest | internal/app/blocktiming.go:36-41 | the scan finds the least slot, whatever order the map is walked in |
| EngineWindows.RunKeepsLargest | internal/app/blocktiming.go:31-43 | after every run the set is the 64 largest distinct slots received |
| EngineWindows.DuplicateIff | internal/app/blocktiming.go:31-43 | a head is dropped exactly when it was received before and fewer than 64 distinct larger slots were received |
| EngineWindows.RepeatAfter | internal/app/blocktiming.go:31-43 | heads 0 to n - 1 and then 0: the repeat is dropped exactly when n is at most 64 |

## Left out

- HTTP, SSE, UDP sockets, JSON and hex decoding: fetches are arbitrary results, bit fields are bytes or malformed.
- The lenient hex reader inside `bitSet` (`%02x` scanning, odd lengths): aggregation bits are bytes or malformed.
- `fetchCommitteeLengths` parsing and `validateBlockAttestations`: validation of a fetched body is one yes-or-no outcome.
- Polling loops (`HeadUpdated`, `AttestationPublished`, `BlockSeen`, the wait for the head before the inclusion scan) and real timers: only that a timer fires no earlier than asked.
- `attestationRewardEvidence` after the inclusion scan: two more fetches and two comparisons.
- Liveness under an unfair scheduler: the rate limiter has a step bound and is never stuck, fairness is not modelled.
- NaN, infinities, signed zero and rounding of float64: values are reals; the bit-pattern tie-break of equal samples (internal/timeline/assembler.go:179-181) is therefore absent.
- Kinds, sources, components and causes outside the closed vocabularies, and the UTC-location checks: the enumerations hold only valid members and all instants are UTC.
- Evidence statements, labels, remediation and report text: a tag stands for the wording; non-blankness is all validation asks.
- Lower-casing of block roots as records are made (internal/domain/observation.go:290-294): roots are compared as recorded.
- NTP with a local clock stepped during the exchange: `t4 - t1` is one difference, where Go takes it from the monotonic clock.
- Pivots beyond 2^53 seconds from the epoch, where the float64 quotient of `fromNTPNear` stops being exact.
- SQLite: transactions that fail, WAL checkpoints, page reclamation and file sizes; sizes are arbitrary functions of the rows left and no error interrupts a batch.
- `sort.SliceStable` itself: it is the stable sort specified in `Sorting`, not Go's implementation; the same for the sort of attribute keys.
- `NetworkBaselineFromObservation`, `SamplesBetween` and the store reads: parameters of `DutySelection`, arbitrary.
- Jitter, `sleepBackoff` and `sleepReconnect`: only the ceilings.
- Doctor, CLI, configuration checks, corpus tools and the Prometheus scraper: single-branch validation or foreign libraries.
- Negative attempts of the backoffs: Go panics on a negative shift.
