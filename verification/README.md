# Verification model of the token optimizer

A Dafny model of the engine's core: the multi-level response cache with its stampede
guard, the artifact cache key, tier routing with the never-downgrade floor, the savings
and token ledgers, and the smallest-lossless selection of encodings. `dafny verify
dfyconfig.toml` checks everything.

## How it is laid out

| files | what they hold |
|---|---|
| `Prelude`, `Ordering`, `Statistics` | options and results; sorting and name order; sums, buckets, percentile |
| `CacheEntry` | entries, expiry, the tombstone test, the stored row |
| `Protocol` | the cache as a concurrent step system: any number of processes and calls, one step per critical section, clock reading or outside call |
| `SlotSafety`, `Progress`, `ExactlyOnce`, `Provenance`, `OneAnswer`, `Freshness`, `Outcomes`, `CrossProcess`, `TombstoneAge` | what every run of it keeps |
| `Reachability`, `RaceWitnesses` | building runs; runs that show which hypotheses are needed |
| `TtlCache`, `TtlRefinement`, `PruningInvisible` | the same cache as a class used by one caller at a time; it is a TTL map; pruning cannot be seen |
| `SoloRuns` | the class is the step system with one call at a time |
| `ArtifactKey` | the byte stream behind the artifact key, and a parser that undoes it |
| `TierConfig`, `Router`, `LoadBearing`, `Pipeline` | the tier registry, selection, the load-bearing floor, floor-preserving failover |
| `Savings`, `Telemetry`, `Ledger`, `Accepted`, `HitTagging` | the two ledgers and their aggregation; concurrent cached requests and what they are billed; when the hit tag can be trusted |
| `Selection`, `Transport`, `Wire`, `Numeric` | the shared selection loop, content codings, request encodings, numeric normalisation |

The concurrent cache and the concurrent ledger are state machines: a thread is one call,
a label says which call steps and what the environment (store, lock, compute, timeout,
liveness) answers, and theorems quantify over all runs. Everything else follows the form
of the source: classes with methods proved against value functions or predicates where
the source updates fields or loops, functions and lemmas where it computes.

In `Protocol` a plain L2 read may return any row ever written for the key, nothing, or an
error; a write may fail and take effect anyway; the clock may be set to anything at any
time (theorems that need clock order say so); a lock may refuse or break at any time.

## Where the code and its documentation part ways

Each of these is a theorem over all runs or inputs that says exactly what the code does, with
a run or an input on which that is not what the documentation says.

- An Invalidate is documented as authoritative, also against a running compute. It stops the
  write-back if and only if it is what last happened to the tombstone between the snapshot and
  the supersede check and its stamp is later than the snapshot's (`Freshness.SupersedeExact`):
  not if a Set, a sweep of the tombstone or an Invalidate with a stamp that is not later
  follows it before the check (`RaceWitnesses.InvalidateForgottenAfterSet` is such a run); and
  a stamp equal to the snapshot's does not count, because the comparison is strict. Between the check and the write-back's L1 section it is always
  overwritten (`Freshness.LateInvalidateIsOverwritten`, and the run
  `RaceWitnesses.InvalidateLostBeforeWriteBack`): the write-back deletes the tombstone.
- Nothing older than an Invalidate is meant to be served after it. The tombstone test rules it
  out exactly as long as the last thing that happened to the tombstone is an Invalidate whose
  stamp is not earlier (`Freshness.ProtectionExact`). After that something older can be served
  if and only if it is still in L1, in the store or in a call's hands, and newer than the
  tombstone there is, if any (`Freshness.OlderIsServableExactly`). Invalidate writes its own clock
  reading over whatever tombstone is there, also over a later one, and a store that ignored the
  delete then answers with the invalidated row
  (`RaceWitnesses.LateInvalidateMovesTombstoneBack`).
- A Set whose store write fails has already cleared the tombstone. Get departs from the TTL map
  afterwards if and only if the new entry has expired and a row that was left in the store has
  not; what it then serves is that row, an invalidated one if the key had been invalidated
  (`TtlRefinement.FailedWriteExact`, and the input
  `TtlRefinement.FailedWriteRevivesInvalidatedValue`).
- The stored row uses 0 for "no expiry", so an expiry at the Unix epoch comes back as
  "never expires" (`CacheEntry.EpochExpiryBecomesImmortal`).
- Select's comment says the default predicate pins every load-bearing request to the
  strongest tier. The floor compares prices and the ladder compares priorities, so this
  holds exactly when every other tier at or above the minimum is strictly cheaper
  (`LoadBearing.PinnedToStrongest`); two free local tiers are a counterexample
  (`LoadBearing.FreeTiersAreNotPinned`).
- Failover preserves the floor of the request only if what the predicate permits in two
  moves it permits in one (`Pipeline.NeverDowngradeExact`); the default predicate does.
- The tag of a cache hit, `cache_hit`, marks the hits in every run if and only if no tier is
  registered under that name (`HitTagging.TagMarksHitsExactly`, and the run
  `HitTagging.MistakenRun`).
- Nothing is re-read after the cross-process lock is granted. A call computes if and only if its
  process uses no lock, it is granted the lock, or its wait times out
  (`CrossProcess.ComputesExactlyWhenAdmitted`). So two processes that use the lock can both
  compute a key without a timeout or an expiry, the second although the first one's result is in
  the store (`RaceWitnesses.SecondProcessComputesAgain`); what the lock excludes is that they do
  so at the same time (`CrossProcess.OverlapMeansTimeout`).
- The normaliser's bound is the last one below which all integers are representable. It refuses
  the even integers beyond it too, which are representable up to twice the bound
  (`Numeric.BeyondTheBound`).

## Model

| member | source | states |
|---|---|---|
| CacheEntry.RereadExact | pkg/cache/cache.go:157-175 | writing an entry to the store and reading it back gives the same entry iff its expiry is not the epoch instant |
| CacheEntry.EpochExpiryBecomesImmortal | pkg/cache/cache.go:157-175 | an entry that expires at the epoch is expired, and its stored copy never expires |
| SlotSafety.LockInvariant | pkg/cache/singleflight.go:77-136 | slots, sfMu, the cross-process lock and call records agree with the program counters in every state of every run |
| SlotSafety.SlotOwnership | pkg/cache/singleflight.go:77-136 | a key's slot is taken iff exactly one call is between register and delete for it, and it is that call's |
| SlotSafety.ClosedForever | pkg/cache/singleflight.go:26-30 | a closed call record never changes again |
| SlotSafety.Broadcast | pkg/cache/singleflight.go:78-82 | a follower returns exactly the outcome its owner published |
| SlotSafety.RecordRole | pkg/cache/singleflight.go:97-136 | a record is created at register, filled at publish, closed at close, and no other step touches it; the slot is held from register to release |
| Progress.StepLowersRank | pkg/cache/singleflight.go:236-256 | every step of a call, polls included, lowers its rank |
| Progress.StepsExactly | pkg/cache/singleflight.go:63-137 | in every run, a call can step iff it waits for neither sfMu nor its leader's close and the environment answers what it was asked; the store may answer any row it kept, nothing or an error, the lock may always refuse and grants only a free key, a compute may return anything |
| Progress.SomeoneMoves | pkg/cache/singleflight.go:77-136 | while a started call is unfinished some started call can step |
| Progress.NoDeadlock | pkg/cache/singleflight.go:77-136 | a reachable state in which nothing can step is one in which every call has returned |
| Progress.RunsAreBounded | pkg/cache/singleflight.go:236-256 | a run takes no more steps than the initial total rank |
| Progress.EveryCallReturns | pkg/cache/singleflight.go:63-137 | every run extends to one in which every call has returned |
| ExactlyOnce.AtMostOneCompute | pkg/cache/singleflight.go:71-137 | in any interleaving at most one compute succeeds for a cell that is not invalidated and whose L1 entry is not judged expired |
| ExactlyOnce.NoComputeAfterSuccess | pkg/cache/singleflight.go:92-98 | after that success no call of the cell reaches compute again: the re-check under sfMu sees the value |
| ExactlyOnce.QuietIfNeverExpired | pkg/cache/cache.go:241-249 | a cell that nobody invalidates and whose entries outlast every clock value of the run meets that hypothesis |
| Provenance.ReturnedValuesHaveOrigin | pkg/cache/singleflight.go:187-213 | a value returned for k, by polling too, was published for k earlier in the run, by a compute that returned it or by a Set that had reached L1, or it is the value of a row in the store at the start |
| Provenance.CachedEntriesHaveOrigin | pkg/cache/singleflight.go:193-196 | so was the value of every L1 entry; in particular a compute error is never cached |
| OneAnswer.PastFor | pkg/cache/singleflight.go:187-213 | a call never comes back to its compute |
| OneAnswer.EveryoneGetsTheSame | pkg/cache/singleflight.go:63-137 | in any interleaving, all calls of a quiet cell that return values return the same one, when computes are the only source of values for the key |
| Freshness.InvalidateStamps | pkg/cache/invalidate.go:35-41 | Invalidate's section leaves its own stamp, sweep or no sweep, and empties L1 |
| Freshness.TombIsLastStamp | pkg/cache/invalidate.go:35-41 | between Sets and sweeps the tombstone is the stamp of the last Invalidate |
| Freshness.JudgementIsAnswered | pkg/cache/cache.go:281-334 | a Get section that judges an entry fit goes on with that entry's value, and one that judges none goes on without a value |
| Freshness.AnswerIsInL1 | pkg/cache/cache.go:281-334 | whatever value a Get answers is what L1 holds when its section is over |
| Freshness.HitsAfterInvalidateAreNewer | pkg/cache/cache.go:241-249 | until the next Set, earlier-stamped Invalidate or sweep, every value a Get answers after an Invalidate is that of an entry stored strictly after its stamp |
| Freshness.SnapshotIsKept | pkg/cache/singleflight.go:187-201 | the snapshot a compute is checked against is the tombstone at its snapshot step |
| Freshness.ProtectionExact | pkg/cache/cache.go:241-249 | in every run, the tombstone test rejects every entry, present or not, that is not newer than a given Invalidate iff what last happened to the tombstone is an Invalidate with a stamp that is not earlier |
| Freshness.OlderIsServableExactly | pkg/cache/cache.go:281-334 | in every run, an entry in L1, in the store or in a call's hands that is not newer than a given Invalidate may be served iff there is one, and what last happened to the tombstone is a Set, a sweep, or an Invalidate with a stamp earlier than the entry |
| Freshness.SupersedeExact | pkg/cache/singleflight.go:198-209 | in every run, the write-back is skipped iff what last happened to the tombstone between snapshot and check is an Invalidate with a stamp later than the snapshot's |
| Freshness.LateInvalidateIsOverwritten | pkg/cache/singleflight.go:201-209 | in every run, once the check is passed the write-back leaves the computed value servable and no tombstone, whatever Invalidates come before its L1 section |
| Freshness.InvalidateHonoured | pkg/cache/singleflight.go:198-209 | an Invalidate during the compute, with later stamps than the snapshot's, stops the write-back |
| Freshness.PromoteNeverRegresses | pkg/cache/cache.go:315-334 | promotion replaces a servable L1 entry only by a strictly newer one, whatever the store answers |
| Freshness.NoneNewerThanSet | pkg/cache/cache.go:351-360 | if Sets of a key lock in the order of their clock readings, no L1 entry, stored row or entry in flight for the key is newer than a Set that has yet to lock |
| Freshness.MonotonicReads | pkg/cache/cache.go:281-334 | for a cell that nobody invalidates and whose entries outlast the clock, with Sets of its key locking in clock order, every value a Get answers is that of an entry at least as new as L1 ever held before |
| Freshness.ReadsSeeTheSet | pkg/cache/cache.go:347-372 | under the same hypotheses, after a Set's L1 section every value a Get answers is that of an entry at least as new as that Set |
| Outcomes.LedFailureIsItsComputes | pkg/cache/singleflight.go:105-122 | in every run, a call that led and failed returns the error of its own compute and no other |
| Outcomes.FollowedFailureIsTheLeadersComputes | pkg/cache/singleflight.go:78-82 | a follower that failed returns the error of its leader's compute |
| Outcomes.DirectFailureIsItsOwn | pkg/cache/singleflight.go:63-75 | any other failed call failed over an empty key or an error of its own store call: of a GetOrCompute only the fast read |
| Outcomes.FailedLookIsNoFailure | pkg/cache/singleflight.go:236-256 | a store that fails while a call re-checks or polls sends it on to register, or to the next poll |
| Outcomes.ReturnedValueIsSettled | pkg/cache/singleflight.go:63-137 | in every run, a value a call returns was answered by one of its own Get sections or returned by its own compute, or for a follower by its leader's |
| Outcomes.ComputedIsReturned | pkg/cache/singleflight.go:187-213 | in every run, a call that computed returns what its compute returned, value or error, superseded or not, whatever its write-back and lock did |
| Outcomes.NeverEmptyHanded | pkg/cache/singleflight.go:63-137 | in every run, a GetOrCompute that comes back, leader or follower, brings a value or an error |
| Outcomes.EntriesAreStamped | pkg/cache/cache.go:351-360 | in every run, what a Set or a write-back puts into L1 is the value and ttl it was called with or its compute returned, in every lock mode, stamped with a clock value of the run |
| Outcomes.InstantsAreRead | pkg/cache/cache.go:281-321 | every critical section of a Get, a Set, a write-back or an Invalidate works with the clock as its call read it in its own step just before |
| Outcomes.KeptWritesAreRows | pkg/cache/cache.go:362-370 | a write the store keeps is a row later reads may return, and nothing else changes the rows |
| Outcomes.InHandIsARow | pkg/cache/cache.go:298-315 | in every run, what a Get judges after its store read is a row of its key, unchanged |
| Outcomes.CachedEntriesAreWritten | pkg/cache/cache.go:315-360 | in every run, every L1 entry is, down to stamp and expiry, one that a write's L1 section put into that cell or a row of its key |
| Outcomes.RowsAreWritten | pkg/cache/cache.go:356-370 | in every run, every row not there from the start is what a re-read makes of an entry that a write of its key put into L1 |
| CrossProcess.OneHolder | pkg/cache/singleflight.go:164-179 | at most one call of any process holds the cross-process lock on a key |
| CrossProcess.OverlapMeansTimeout | pkg/cache/singleflight.go:164-179 | two overlapping computes of a key are in different processes and, if both are guarded, one of them timed out polling |
| CrossProcess.GrantsAreBalanced | pkg/cache/crossprocess.go:33-51 | grants minus unlocks is 1 exactly while the call holds the lock, and it is granted at most once |
| CrossProcess.ReturnedMeansReleased | pkg/cache/singleflight.go:164-179 | a returned call, with a value or an error, has unlocked exactly as often as it was granted |
| CrossProcess.ComputesExactlyWhenAdmitted | pkg/cache/singleflight.go:164-179 | a returned call ran its compute iff its process uses no lock, it was granted the lock, or its wait timed out |
| CrossProcess.PollsWithinBudget | pkg/cache/singleflight.go:246-255 | a waiting call may give up at any pause, and may look again exactly as long as it has done so less often than its wait budget allows |
| TombstoneAge.TombstonesAreYoung | pkg/cache/cache.go:257-268 | with retention d, right after an Invalidate at now every tombstone is stamped in (now - 2d, now] |
| TombstoneAge.TombstonesAreRecentKeys | pkg/cache/invalidate.go:33-41 | so every tombstoned key was invalidated in (now - 2d, now], and there are at most as many tombstones as such keys |
| TombstoneAge.SweepsAreApart | pkg/cache/cache.go:257-261 | two sweeps of one process are at least the retention time apart |
| RaceWitnesses.ThreeCallsExist | pkg/cache/singleflight.go:187-213 | the starting states of the next row exist for every key |
| RaceWitnesses.InvalidateLostBeforeWriteBack | pkg/cache/singleflight.go:198-209 | from such a state a run loses an Invalidate: computed before it began, served after it returned |
| RaceWitnesses.CallsWithSetExist | pkg/cache/singleflight.go:187-213 | the starting states of the next row exist for every key and value |
| RaceWitnesses.InvalidateForgottenAfterSet | pkg/cache/cache.go:357-360 | from such a state a run writes a compute's value back although an Invalidate, and then a Set, fell into its window |
| RaceWitnesses.FourCallsExist | pkg/cache/invalidate.go:29-49 | the starting states of the next row exist for every key and value |
| RaceWitnesses.LateInvalidateMovesTombstoneBack | pkg/cache/invalidate.go:33-37 | from such a state a run serves a value stored before an Invalidate that has returned |
| RaceWitnesses.TwoGuardedExist | pkg/cache/singleflight.go:164-179 | the starting states of the next row exist for every key |
| RaceWitnesses.SecondProcessComputesAgain | pkg/cache/singleflight.go:169-173 | from such a state two processes are granted the lock one after the other and both compute, the second with the first one's result in the store |
| TtlCache.Cache.constructor | pkg/cache/cache.go:225-236 | a new cache is empty over its store |
| TtlCache.Cache.Valid | pkg/cache/cache.go:241-249 | unexpired and stored strictly after the tombstone |
| TtlCache.Cache.Get | pkg/cache/cache.go:275-335 | answer and new state are those of the value functions GetResult and Getting |
| TtlCache.Cache.SetWithTTL | pkg/cache/cache.go:347-372 | new state is Setting's; a failed store write is reported |
| TtlCache.Cache.PruneTombstones | pkg/cache/cache.go:257-268 | at most once per retention time, drops exactly the tombstones older than it |
| TtlCache.Cache.Invalidate | pkg/cache/invalidate.go:29-49 | new state is Invalidating's, whatever the store does with the delete |
| TtlCache.Cache.GetOrCompute | pkg/cache/singleflight.go:63-137 | one caller's answer and new state are those of ComputeResult and Computing; compute runs iff both reads miss |
| TtlCache.Cache.RunComputeAndWriteBack | pkg/cache/singleflight.go:187-213 | hands on what compute returned and writes it back; an error changes nothing |
| TtlRefinement.HoldsStep | pkg/cache/cache.go:275-372 | each operation, and a lagging store, keeps the relation between the maps and the last write of a key |
| TtlRefinement.GetIsTtlMapLookup | pkg/cache/cache.go:275-335 | Get hits with v iff v is the last Set since the last Invalidate and is unexpired, even over a store whose deletes do nothing |
| TtlRefinement.FailingReadIsReported | pkg/cache/cache.go:296-301 | a failing store read gives a right hit or an error, never a wrong answer |
| TtlRefinement.ServedExactlyForItsTtl | pkg/cache/cache.go:347-355 | a Set with a positive ttl is served exactly before now + ttl, any other for ever, as long as the key is not written again |
| TtlRefinement.GetLeavesItsAnswer | pkg/cache/cache.go:281-334 | after a Get, L1 holds for the key the value it answered, judged fit, or nothing, and is otherwise unchanged |
| TtlRefinement.RestartAfterInvalidate | pkg/cache/invalidate.go:43-48 | after a restart an invalidated key is gone iff the store honoured the delete, or its row is expired or was never there |
| TtlRefinement.GetOrComputeIsLookupOrCompute | pkg/cache/singleflight.go:63-137 | it answers the last unexpired Set since the last Invalidate and runs nothing, else runs compute once and remembers its value but never its error |
| TtlRefinement.FailedWriteExact | pkg/cache/cache.go:357-370 | after any orderly run, a Set whose store write fails, and anything but writes of its key, Get departs from the TTL map iff the new entry has expired and a row left in the store has not; it then serves that row |
| TtlRefinement.FailedWriteRevivesInvalidatedValue | pkg/cache/cache.go:357-370 | for all values an input on which that row is an invalidated one |
| PruningInvisible.PruningIsInvisible | pkg/cache/cache.go:116-137 | under the lifetime contract every Get of every run answers the same with pruning as without |
| PruningInvisible.SupersedeDecisionsAgree | pkg/cache/singleflight.go:187-201 | and a compute of at most d is superseded in one iff in the other |
| PruningInvisible.ImmortalEntryOutlivesItsTombstone | pkg/cache/cache.go:130-134 | with a never-expiring entry one sweep makes the difference visible |
| SoloRuns.SoloGet | pkg/cache/cache.go:275-335 | the step system has a run of that call alone, with the same clock readings and store behaviour, that answers and changes the maps exactly as the class's Get |
| SoloRuns.SoloSet | pkg/cache/cache.go:347-372 | the same for SetWithTTL |
| SoloRuns.SoloInvalidate | pkg/cache/invalidate.go:29-49 | the same for Invalidate, sweep included |
| SoloRuns.SoloGetOrCompute | pkg/cache/singleflight.go:63-137 | the same for GetOrCompute, and the single-flight section is left as it was found |
| SoloRuns.SequenceIsARun | pkg/cache/cache.go:181-223 | for every sequence of calls of the class by one caller the step system has a run in which they take place one after the other, with the class's answers and the class's maps at the end |
| ArtifactKey.Hash.WriteUint64 | pkg/cache/artifact.go:128-132 | appends eight big-endian bytes |
| ArtifactKey.Hash.WriteField | pkg/cache/artifact.go:123-126 | appends the length and the bytes |
| ArtifactKey.Paths | pkg/cache/artifact.go:85-88 | lists the map's keys in any order, each once |
| ArtifactKey.FeedArtifact | pkg/cache/artifact.go:76-97 | feeds the hash exactly the canonical stream, whatever the iteration order |
| ArtifactKey.FeedWeb | pkg/cache/artifact.go:109-114 | feeds url and etag as two fields |
| ArtifactKey.SortedListingIsCanonical | pkg/cache/artifact.go:85-89 | sorting any listing of the same keys gives one sequence |
| ArtifactKey.NumberBytes | pkg/cache/artifact.go:128-132 | byte i of a length is its digit at 256 to the power of 7 - i |
| ArtifactKey.PathsAscend | pkg/cache/artifact.go:89 | paths are fed in ascending order of their bytes, a prefix first |
| ArtifactKey.StreamRoundTrip | pkg/cache/artifact.go:76-97 | the parser recovers tool, argv, git head and inputs from the stream |
| ArtifactKey.StreamInjective | pkg/cache/artifact.go:67-75 | equal streams come from equal invocations |
| ArtifactKey.WebStreamInjective | pkg/cache/artifact.go:106-114 | equal web streams come from equal url and etag |
| ArtifactKey.DomainsAreSeparate | pkg/cache/artifact.go:76-114 | no web stream is an artifact stream |
| TierConfig.Config.constructor | pkg/config/config.go:111-118 | a new registry is empty and has the default predicate |
| TierConfig.Config.RegisterTier | pkg/config/config.go:123-137 | records the tier, or reports empty name, negative price or duplicate in that order and changes nothing |
| TierConfig.Config.RegisterAlternative | pkg/config/config.go:172-203 | all or nothing: appends the new names in first-seen order, or reports the first bad one; fallbacks stay registered, distinct and never self |
| TierConfig.ScreenedIsFresh | pkg/config/config.go:178-200 | what is appended is registered, new, without repetition, and covers every name given |
| TierConfig.ScreenedFails | pkg/config/config.go:188-194 | a registration is refused iff it names the primary or an unknown tier, with the error for the first such name |
| TierConfig.ScreenedInOrder | pkg/config/config.go:170-200 | new fallbacks are appended in the order in which they were first named |
| TierConfig.Config.Alternatives | pkg/config/config.go:207-217 | the fallbacks of a tier in registration order |
| TierConfig.Config.SetNeverDowngrade | pkg/config/config.go:239-246 | installs the predicate; nil restores the default |
| TierConfig.Config.IsForbiddenDowngrade | pkg/config/config.go:251-256 | asks the installed predicate |
| TierConfig.Config.Tiers | pkg/config/config.go:150-164 | every registered tier once, ordered by priority, then name |
| TierConfig.LadderUnique | pkg/config/config.go:147-164 | that listing is determined by the registered tiers alone |
| TierConfig.LadderAscends | pkg/config/config.go:157-162 | down the listing priorities never fall, and equal priorities are in character order of the names |
| Router.Router.ResolveFloor | pkg/router/loadbearing.go:26-39 | the explicit floor, else the strongest tier for a load-bearing request, else none; an unknown name is an error |
| Router.Router.Select | pkg/router/router.go:119-166 | the least tier in the ladder at or above the minimum that the floor permits, or the honest error |
| Router.SelectsUnique | pkg/router/router.go:108-166 | that promise admits one answer, which depends only on the registry's contents and the request |
| Router.Router.Failover | pkg/router/failover.go:36-59 | the primary if live, else the first live registered fallback |
| LoadBearing.LoadBearingNeverFails | pkg/router/loadbearing.go:34-37 | on a non-empty registry, with a known minimum, no explicit floor and a predicate that never forbids staying put, a load-bearing Select succeeds |
| LoadBearing.DefaultNeverFails | pkg/config/config.go:84-89 | so under the default predicate it always succeeds |
| LoadBearing.PinnedToStrongest | pkg/router/router.go:113-118 | under the default predicate it is the strongest tier iff every other tier at or above the minimum has a strictly smaller sum of input and output price |
| LoadBearing.FreeTiersAreNotPinned | pkg/router/router.go:113-118 | with two free tiers a load-bearing request goes to the weaker one |
| Pipeline.Optimizer.SetSavingsRecorder | pkg/pipeline/pipeline.go:275-277 | installs the savings recorder, or removes it |
| Pipeline.Optimizer.ResolveBaselineCost | pkg/pipeline/pipeline.go:330-340 | the caller's baseline, or the tokens priced at the strongest tier, or an error when there is none |
| Pipeline.Optimizer.RecordSavings | pkg/pipeline/pipeline.go:300-316 | adds one record for the billed tier, or reports why not |
| Pipeline.Optimizer.Route | pkg/pipeline/pipeline.go:379-438 | the selected tier if live, else its first live permitted fallback, else the honest error |
| Pipeline.Optimizer.Optimize | pkg/pipeline/pipeline.go:356-439 | the routing result with one record for a decision and none for an error; a recording error comes back with the decision |
| Pipeline.RoutesUnique | pkg/pipeline/pipeline.go:379-438 | the result is a function of registry, request and liveness |
| Pipeline.FailsOnlyWhenStranded | pkg/pipeline/pipeline.go:408-438 | once Select succeeds, Optimize's routing fails iff the selected tier is down and every fallback is down or forbidden |
| Pipeline.NeverDowngrade | pkg/pipeline/pipeline.go:342-349 | for a transitive predicate the tier finally used is permitted relative to the request's own floor, for every topology and outage |
| Pipeline.NeverCheaperThanFloor | pkg/config/config.go:84-89 | under the default predicate the sum of its input and output price is never below the floor's |
| Pipeline.DefaultForbidsExactly | pkg/config/config.go:69-89 | the default predicate forbids a move iff the request is load-bearing and a million input plus a million output tokens cost strictly less at the candidate |
| Pipeline.NeverDowngradeExact | pkg/pipeline/pipeline.go:401-434 | the guarantee holds for all topologies, requests and outages iff the predicate is transitive on the registered tiers |
| Pipeline.AgreesWithFailover | pkg/router/failover.go:36-59 | Optimize equals Failover from the selected tier with forbidden tiers counted as down |
| Pipeline.AutoBaselineIsAPrice | pkg/pipeline/pipeline.go:330-340 | for a routed request with measured tokens the engine's own baseline exists and is not negative |
| Savings.PartsCostTheWhole | pkg/telemetry/savings.go:50-53 | however a request is cut into parts, the parts priced one by one cost what the whole costs |
| Savings.CostInMillions | pkg/telemetry/savings.go:41-53 | a million times the cost is input tokens times input price plus output tokens times output price: a million input tokens cost the input price, a million output tokens the output price |
| Savings.SavingsRecorder.Record | pkg/telemetry/savings.go:176-198 | negative costs are refused and not logged; a refused line is reported and logged all the same |
| Savings.SavingsRecorder.Aggregate | pkg/telemetry/savings.go:249-271 | a report over exactly the records so far |
| Savings.SavingsStatsOf | pkg/telemetry/savings.go:287-311 | count, sums, mean and order statistics of a bucket |
| Savings.StatsMeaning | pkg/telemetry/savings.go:217-231 | saved is baseline less spent; count times mean is the sum; min and max are attained bounds; mean and p95 lie between; the p95 covers its share on both sides |
| Savings.StatsOfOne | pkg/telemetry/savings.go:287-311 | one record's statistics in the record's own fields |
| Savings.StatsOfBoth | pkg/telemetry/savings.go:291-299 | counts and sums of two logs in a row add up |
| Savings.ReportOfOne | pkg/telemetry/savings.go:249-283 | a record goes to its tag's bucket, or to the unaccounted one iff its tag is empty or not among the registered tags when there are any |
| Savings.ReportOrderFree | pkg/telemetry/savings.go:245-248 | the same bag of records gives the same report |
| Savings.ReportReconciles | pkg/telemetry/savings.go:240-242 | every total is the sum over the accounted tags plus the unaccounted bucket |
| Telemetry.Recorder.Record | pkg/telemetry/telemetry.go:162-188 | negative token counts are refused and not logged; a refused line is reported and logged all the same |
| Telemetry.Recorder.Aggregate | pkg/telemetry/telemetry.go:239-265 | a report over exactly the records so far |
| Telemetry.StatsOf | pkg/telemetry/telemetry.go:284-301 | count, sum, mean and order statistics of a bucket |
| Telemetry.StatsMeaning | pkg/telemetry/telemetry.go:207-217 | count times mean is the sum; min and max are attained bounds; mean and p95 lie between; the p95 covers its share on both sides |
| Telemetry.StatsOfBoth | pkg/telemetry/telemetry.go:289-292 | counts and token sums of two logs in a row add up |
| Telemetry.ReportOfOne | pkg/telemetry/telemetry.go:239-279 | a record's report in its own fields: input plus output tokens, under its tag, or unaccounted iff the tag is empty or not among the registered ones when there are any |
| Telemetry.ReportOrderFree | pkg/telemetry/telemetry.go:234-238 | the same bag of records gives the same report |
| Telemetry.ReportReconciles | pkg/telemetry/telemetry.go:225-231 | counts and token sums over the tags plus unaccounted equal the total |
| Statistics.Bucket | pkg/telemetry/telemetry.go:244-255 | files every record under its tag, in order, or among the unaccounted |
| Statistics.NothingDropped | pkg/telemetry/telemetry.go:222-231 | the buckets' sums and the unaccounted sum make the sum over the log, in any listing of the tags |
| Statistics.PercentileWithin | pkg/telemetry/telemetry.go:307-325 | the percentile lies between the least and the greatest sample |
| Statistics.PercentileBrackets | pkg/telemetry/savings.go:318-336 | it lies between the two samples around its position, which is in bounds |
| Statistics.PercentileMonotone | pkg/telemetry/savings.go:318-336 | a larger p never gives a smaller percentile, across samples too |
| Statistics.PercentileCovers | pkg/telemetry/telemetry.go:307-325 | more than (n-1)p/100 samples lie at or below it and at least (n-1)(100-p)/100 at or above |
| Statistics.PercentileEnds | pkg/telemetry/telemetry.go:307-325 | the 0th is the least sample and the 100th the greatest; without samples every percentile is 0 |
| Statistics.PercentileBetween | pkg/telemetry/telemetry.go:315-324 | at the share w of the way from one sample to the next, both included, the percentile is (1 - w) of the one plus w of the other |
| Statistics.PercentileAtSample | pkg/telemetry/savings.go:326-334 | at an integer position it is that sample |
| Statistics.PercentileIsAffine | pkg/telemetry/savings.go:326-335 | on each segment between samples, both ends included, it is affine in p |
| Statistics.PercentileOfEven | pkg/telemetry/telemetry.go:307-325 | of evenly spaced samples a + i d it is a + (n-1)p/100 d |
| Statistics.SpreadOfEven | pkg/telemetry/savings.go:300-310 | of evenly spaced values in any order the reported figures are the first, the last, and 95% of the way between |
| Ledger.AutoBaselineFailsOnlyInRouting | pkg/pipeline/pipeline.go:300-316 | with the engine's own baseline, measured tokens and a cost, Optimize fails iff routing does, the sink aside: its record is always accepted |
| Ledger.OneLinePerCall | pkg/pipeline/cache.go:142-209 | in any interleaving a cached call that returns no error has exactly one record: a hit at no cost if its compute never ran, else the tier Optimize billed, at its cost |
| Ledger.ErrorsAreBilledOnlyIfRouted | pkg/pipeline/cache.go:144-166 | a call that returns an error has one record iff its Optimize succeeded |
| Accepted.BillsExactly | pkg/pipeline/pipeline.go:300-316 | of a cached call at its compute, under any liveness and the sink aside, Optimize can succeed iff routing decides, there is a baseline, and neither baseline nor cost is negative; it can fail iff it cannot succeed |
| Accepted.SucceedsExactly | pkg/pipeline/cache.go:164-209 | in every run a cached call succeeds iff its cache call returned no error and, if its compute never ran, its baseline exists and is not negative |
| Accepted.NothingNegative | pkg/telemetry/savings.go:172-180 | in every run no record in the ledger has a negative cost |
| Ledger.LedgerConserved | pkg/pipeline/cache.go:142-209 | records equal successful Optimizes plus hits |
| Ledger.ReportCountsCalls | pkg/telemetry/savings.go:249-271 | so does the total of the aggregated report |
| Ledger.SpendIsTheBilledCost | pkg/pipeline/cache.go:169-205 | the optimized spend of the report is the cost of the billed calls, each once; hits add nothing |
| HitTagging.TagMarksHitsExactly | pkg/pipeline/cache.go:198-205 | in every state of every run the tag marks exactly the hits, iff no tier is registered under it |
| HitTagging.MistakenRun | pkg/pipeline/pipeline.go:281-285 | for every registry with such a tier, a run whose one record carries the tag although its call was billed |
| Ledger.StampedeIsBilledOnce | pkg/pipeline/cache.go:104-117 | of the racing calls of a quiet cell that return no error at most one is billed; the others are hits |
| Ledger.ProjectedRun | pkg/pipeline/cache.go:142-163 | billing aside, a run of cached calls is a run of the cache |
| Selection.Smallest | pkg/transport/negotiate.go:172-224 | over codecs sorted by name, the loop chooses the least (size, name) among those that round-trip, and reports a verdict on each |
| Selection.ChoiceIsUnique | pkg/transport/negotiate.go:156-171 | the choice and the report depend on the set of codecs only |
| Selection.VerdictMeaning | pkg/transport/negotiate.go:33-50 | a candidate's report: its name, whether it round-trips, the size of its output or 0, and the error of the half that failed |
| Selection.Register | pkg/transport/negotiate.go:113-133 | refuses an empty list and the first empty or repeated name; else indexes every codec by name, in order |
| Transport.NewNegotiator | pkg/transport/negotiate.go:113-133 | a valid negotiator over the given compressors, or the reason for refusing them |
| Transport.Negotiator.Compress | pkg/transport/negotiate.go:172-224 | the smallest lossless coding, or the error with every verdict |
| Transport.Negotiator.Decompress | pkg/transport/negotiate.go:234-248 | decodes with the named compressor; no header means identity; an unknown token is an error |
| Transport.HeaderRoundTrip | pkg/transport/negotiate.go:268-273 | decoding under the declared header, or under none if none is declared, gives the original body |
| Transport.HeaderNamesTheCoding | pkg/transport/negotiate.go:263-273 | the header is omitted iff the coding is identity or empty, and otherwise names it (section 3.1.2.2 of RFC 7231) |
| Transport.IdentityNeverFails | pkg/transport/negotiate.go:164-168 | with the identity compressor Compress succeeds and never grows the body |
| Transport.CompressIsOrderFree | pkg/transport/negotiate.go:107-112 | registration order cannot be seen in the result |
| Wire.NewSelector | pkg/wire/select.go:92-112 | a valid selector over the given encoders, or the reason for refusing them |
| Wire.Selector.Select | pkg/wire/select.go:135-191 | the smallest lossless encoding; nil is an error; so is a value nobody round-trips |
| Wire.SelectedIsLossless | pkg/wire/select.go:200-206 | the winner's bytes decode to the value, and no lossless encoder beats it by size, then name |
| Wire.FailsIffNoneLossless | pkg/wire/select.go:182-184 | selection fails iff no encoder round-trips the value |
| Wire.SelectionIsOrderFree | pkg/wire/select.go:87-91 | registration order cannot be seen in the result |
| Numeric.FailsExactly | pkg/wire/numeric.go:49-51 | normalisation fails iff some reachable leaf is an integer beyond 2^53 or a non-finite float |
| Numeric.PreservesMeaning | pkg/wire/numeric.go:61-108 | on success every path exists as before and its value means the same there |
| Numeric.NoIntegerLeft | pkg/wire/numeric.go:27-41 | on success no integer is left in the containers it recurses into |
| Numeric.Idempotent | pkg/wire/numeric.go:54-56 | normalising twice is normalising once |
| Numeric.AcceptedIsExact | pkg/wire/numeric.go:19-25 | every accepted integer, signed or unsigned, is a 53-bit significand times a power of two (binary64, section 3.3 of IEEE 754-2019) |
| Numeric.AcceptsExactly | pkg/wire/numeric.go:86-105 | an integer is accepted iff its magnitude is at most 2^53, a float iff it is finite |
| Numeric.BeyondTheBound | pkg/wire/numeric.go:19-25 | from the bound to its double, on either side, exactly the even integers are such numbers, and all integers are refused |
| Numeric.NextIsNotExact | pkg/wire/numeric.go:19-25 | 2^53 + 1 is not one, and is refused; 2^53 + 2 is one, and is refused all the same |

## Left out

- `OptimizeCached` as a class method: it is modelled as a concurrent step system only (`Ledger`), because its compute calls back into the optimizer that owns the cache. The cross-process lock and its poll loop are likewise in `Protocol` only; the class's `GetOrCompute` is one caller's, without a lock.
- `OptimizeCached` without a cache, and nil arguments (`ErrNilExecute`, `ErrNilCompute`, `ErrNilConfig`): one-line guards.
- Panics inside a compute, computes that call back into the same cache, and goroutines that never get scheduled.
- Wall-clock waiting while polling: a call polls a bounded number of times and may time out at any poll.
- The lock is taken to grant only what is free, but a compute that outlives a broken lock is not modelled.
- `pkg/cache/filestore.go`, `pkg/cache/filelock_unix.go`, `pkg/cache/filelock_other.go`: file I/O and flock; the store and the lock are abstract.
- SHA-256 and hexadecimal output: results about keys are about the byte stream before hashing.
- `GetOrComputeArtifact`, `InvalidateArtifact`, `Set` with the default TTL: calls of modelled operations with other arguments.
- JSON text, JSONL emission and decode errors of stored rows: a row is a record, an unreadable row is a store error, a sink is a log that may refuse a line.
- The range of nanosecond timestamps and of int64 counters: instants, durations and counts are unbounded integers. An instant has no wall or monotonic reading beside its value.
- The zero instant of the last sweep is "no sweep yet"; a clock within one retention time of the zero instant is not modelled.
- IEEE rounding of prices, sums, means and percentiles: amounts are reals. `-0`, and the shortest decimal form of a float, do not appear.
- Error wrapping and message text; for a nested value the path in the normaliser's error, which depends on map iteration order.
- Codec internals (`pkg/transport/compress.go`, `pkg/transport/brotli/brotli.go`, `CompactJSON`): a codec is any deterministic pair of partial functions; its Go type and `reflect.DeepEqual` are a comparison supplied with the codecs.
- `pkg/transport/http.go`: net/http plumbing around `Compress` and `Decompress`.
- `pkg/router/evidence.go`, evidence emission in Optimize, `SetThreshold`/`Threshold`, `Sizes`, `Encodings`, `Records`, `Len`: field copying.
- `pkg/tier/registry.go`, `pkg/tier/dispatch.go`, `pkg/tier/logtriage.go`: a map lookup, a first-success loop, and the regexp engine.
- Registries and recorders under concurrent mutation: their methods are atomic here; liveness is one predicate for the length of a call.
- Statistics.PercentileWithin: for percentages between 0 and 100 only; the source calls it with 95 and does not check the range.
- Freshness.MonotonicReads: assumes that Sets of the key, in whatever process, take their lock in the order of their clock readings and that rows in the store at the start are not newer than any of them, because the source reads the clock before the lock and does not compare stamps when it writes.
