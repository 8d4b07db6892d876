# Opusfinder: a verified model

Opusfinder finds job postings, matches them to people and mails digests. This project models the parts of it whose
correctness is hardest to see from the code, in Dafny 4.11, and proves what they promise. `dafny verify
dfyconfig.toml` checks everything.

**The control plane** is a desired-state store with a permission ratchet: an owner may set anything, an agent or a
runtime may only make things safer. Every write has two phases, a read that decides and a later batch guarded by the
row's value. `Registry` is the registry as a parameter, `Targets` and `Resolve` the address grammar and the fail-closed
resolver, `Classify` the ratchet, `Views` what is shown of a state, `Store` the three tables and their batches,
`Service` each operation as steps that touch the database once. `Protocol` lets any number of requests interleave at
those steps, and `Ratchet`, `Refinement` and `Lifecycle` are the theorems about every such run, over any tables an
earlier release may have left; `Deploys` says what a release does to a proposal filed before it. The proofs hold for
every well-formed registry; `RegistryExample` shows that there is one.

**Production data fixes** are numbered SQL files, linted and then applied once each. `SqlGrammar` says what a SQL text
is made of, without saying how to find it; `SqlScan` proves that the scanner finds the one reading there is; `SqlCode`
is the scan loop and its two results, `SqlBlank` what it cannot see, `FixLint` the linter, `FixDepth` what an accepted
file cannot hide at any dollar-quote depth, `FixFiles` the numbering. `FixRunner` is many runners against one
database, with failing queries and a COMMIT whose answer is lost, and `FixClient` the runner as it is written.

**Concurrency and durability**: `ProbePool` and `ProbeFetch` are the probe workers, their per-host throttle and their
retries; `KeyCache` the signing-key cache under overlapping requests; `DigestItems` and `DigestRun` one user's digest
under steps that may crash and be executed again.

**Algorithms**: `Embeddings` and `EmbedResponse` are greedy chunking and the responses put back in order; `Zip` and
`ZipWriter` the zip reader over arbitrary bytes and a writer it reads back; `Ndcg` the ranking score; `SeedResolve` and
`Discovery` the discovery run's dedupe, partition and counts.

Where the source updates state in place there is a class or a loop (`ControlStore`, `Connection`, `HostThrottle`,
`Batch`, `KeyCache`, `ScanSql`, `ReadZipEntry`, `ResolveLanes` and so on), proved against a function of the old state;
the theorems are about those functions. A transition system's events are the source's awaits: between two of them
anything else may happen.

Four promises turned out to need a condition, which is proved exact. A knob's stored number is refused when typed
back if it prints with an exponent (`Resolve.ParseValueIdempotent`); no knob of the source's registry has a range
with such numbers. The key cache can answer from keys older than `maxStaleMs` if `ttlMs` is configured longer than that
(`KeyCache.LongFreshnessOutlivesStaleness`); the source's defaults are not. A digest's item count misses kept items
whose job was pruned before the liveness probe (`DigestRun.RecountMatches`, `DigestRun.PrunedRunMiscounts`). An approval
writes the proposed value only if it is still canonical (`Lifecycle.ApprovalsWriteTheProposed`): after a deploy that
leaves an override at its stage's top mode, it is written as "no override", which caps exactly as much (`Deploys`).

## Model

| member | source | states |
|---|---|---|
| `Ratchet.EveryRiseIsTheOwners` | apps/control/src/store.ts:199-259 | In every run of two-phase requests of every role, cut at every database call and starting from any stored values and any filed proposals: if the effective mode of the switch, a policy or any slice of a stage is more on later than earlier, the owner changed something in between |
| `Ratchet.EveryRiskierKnobIsTheOwners` | apps/control/src/service.ts:443-508 | The same for every knob: it resolves further to its riskier side only through the owner |
| `Ratchet.CommitIsSafe` | apps/control/src/service.ts:443-508 | Whatever happened between the read and the commit, a commit that passes its guard and is not the owner's leaves no target resolving to a riskier value |
| `Ratchet.StepIsSafe` | apps/control/src/service.ts:443-508 | One step of any request either is the owner's, or leaves every target no riskier |
| `Ratchet.RisesNeedTheOwner` | packages/control/src/classify.ts:57-134 | Any measure of the state that grows only with some target's risk grows over a run only if the owner acted in between |
| `Protocol.StepKeepsTasks` | apps/control/src/service.ts:431-509 | Every request in flight, in every interleaving and over any tables, still carries what its own reading decided; proposals are only appended and keep what was asked |
| `Protocol.StepKeepsFilings` | apps/control/src/service.ts:514-549 | What is filed in a run is canonical under its registry, and filed addresses stay trimmed |
| `Protocol.ChangeDecided` | apps/control/src/service.ts:443-487 | A change about to commit carries the row it read, the value that row resolved to, and a classification that allowed it |
| `Protocol.ChangeReadsOneRow` | apps/control/src/service.ts:443-487 | Deciding a change depends on one row only, which is why comparing that row's value at commit suffices |
| `Protocol.DecisionReadsOneRow` | apps/control/src/service.ts:598-671 | Deciding an approval or a rejection depends on the proposal, whatever it holds, and on the one row its address names |
| `Protocol.TripReadsOneRow` | apps/control/src/service.ts:846-866 | Deciding a trip depends on the stage's own row only |
| `Refinement.CommitIsAtomic` | apps/control/src/store.ts:199-259 | Over any tables whose proposals have trimmed addresses: a commit that passes its guard equals reading, classifying and writing done at the commit instant: same tables after, same answer, even if the row changed and changed back |
| `Refinement.LostRaceWritesNothing` | apps/control/src/store.ts:199-259 | A commit that fails its guard leaves all three tables as they were; the answer is a conflict, or for a trip another attempt |
| `Refinement.AuditTrail` | apps/control/src/store.ts:11-16 | In every run from such tables, replaying the change-log rows logged since the start over the starting state gives exactly the current state, and each row's from is what its target resolved to just before |
| `Refinement.EntriesJoinUp` | packages/control/src/resolve.ts:172-181 | Two consecutive change-log rows of one target join: the later one's from is exactly the earlier one's to |
| `Refinement.ProposedToIsApplied` | apps/control/src/service.ts:616-671 | What an approval writes is the proposed value exactly when that one is canonical under today's registry |
| `Refinement.ApprovalFields` | apps/control/src/service.ts:616-671 | Whatever the proposal holds, an approval carries its target, its from and its id, and writes what its value typed again parses to today |
| `Lifecycle.DecidedOnce` | apps/control/src/store.ts:383-399 | In every run a proposal's ask never changes and its decision, once made, never changes: it leaves open at most once |
| `Lifecycle.StepDecides` | apps/control/src/service.ts:224-238 | A step that decides a proposal does so only while it is open and before its expiry |
| `Lifecycle.ApprovedExactlyWhenLogged` | apps/control/src/store.ts:201-258 | In every run, over whatever proposals the tables held at its start, a proposal is approved exactly when one single change-log row carries its id, and that row is on the proposal's target and from its from |
| `Lifecycle.ApprovalsWriteTheProposed` | apps/control/src/service.ts:216-238 | A row logged in a run for a proposal writes what the proposed value parses to today, which is the proposed value exactly when that one is canonical today; for a proposal filed in the run it always is |
| `Lifecycle.ApprovalStartsFromTheProposed` | apps/control/src/service.ts:224-238 | Just before the one step that logs a proposal's approval its target resolved to the proposal's from, and just after it to what the row says |
| `Deploys.AcrossADeploy` | apps/control/src/service.ts:216-238 | Approving a proposal filed under any earlier registry writes the proposed value unless that is an override at what is now its stage's top mode, exactly then written as no override |
| `Deploys.TopIsNoOverride` | packages/control/src/targets.ts:155-167 | Written so or as the top mode, every effective mode is the same |
| `Deploys.TopModeIsWrittenAsNone` | apps/control/src/service.ts:598-640 | The exception is real: a proposal of shadow, approved after a deploy took the mode above it away, is logged as clearing the override |
| `Lifecycle.CommitMatches` | apps/control/src/service.ts:616-671 | A commit for a proposal carries that proposal's target and from, and what its value parses to |
| `Lifecycle.AskedOnceAndCapped` | apps/control/src/store.ts:282-316 | In every run, at any time not before a clock already used: no (target, from, to) has two live proposals and no proposer holds more than the cap |
| `Lifecycle.RefilingReturnsTheSame` | apps/control/src/store.ts:282-316 | Refiling a live ask returns that same id and adds no row, even at the cap |
| `Lifecycle.FirstFiling` | apps/control/src/service.ts:514-549 | A first filing under the cap appends one open row and returns its id; at the cap it adds nothing |
| `Store.ControlStore.Apply` | apps/control/src/store.ts:199-259 | The three statements, each under its own condition, do all of the batch or none of it; the third fires exactly with the others only because logged proposals are always approved, which the method keeps |
| `Store.ControlStore.File` | apps/control/src/store.ts:282-316 | The guarded insert and the read after it: the new row or the live one already there, or none at the cap |
| `Store.ControlStore.Close` | apps/control/src/store.ts:383-399 | Closes a proposal only while it is open and unexpired, and touches nothing else |
| `Classify.AgentAppliesExactly` | packages/control/src/classify.ts:75-134 | For every stored value, garbage included, an agent's change is applied at once exactly when it keeps the risk, or lowers it where the target's rule is the safe direction; otherwise it is proposed |
| `Classify.NonOwnerNeverRaises` | packages/control/src/classify.ts:57-134 | Whoever is not the owner and may apply a change does not raise the target's risk |
| `Classify.SafeWrite` | packages/control/src/resolve.ts:172-181 | Writing a value no riskier than the one its target resolved to leaves every target no riskier |
| `Classify.WriteReads` | packages/control/src/resolve.ts:172-181 | After a write, its own target resolves to the written value and every other target to what it did before |
| `Classify.EffectiveMonotone` | packages/control/src/resolve.ts:133-169 | If no target got riskier then no effective mode got more on, for the switch, every policy and every slice of every stage |
| `Classify.KnobMonotone` | packages/control/src/resolve.ts:98-115 | If no target got riskier then no resolved knob moved to its riskier side |
| `Resolve.EffectiveMode` | packages/control/src/resolve.ts:133-169 | From any stored state the loop returns a real mode whose rank is the lowest of the switch's, the entry's own and every override of the slice, and says which of them capped it |
| `Resolve.SliceRankIsLowest` | packages/control/src/resolve.ts:139-169 | The overrides contribute the lowest rank among those of the slice that are set, and no more |
| `Resolve.DimensionOrderIrrelevant` | packages/control/src/resolve.ts:139-169 | The order of a stage's dimensions does not matter |
| `Resolve.WriteThenRead` | packages/control/src/resolve.ts:61-115 | A row holding what parsing a value gave resolves to exactly that |
| `Resolve.ParseValueIdempotent` | packages/control/src/targets.ts:135-194 | A parsed value parses again to itself, except a knob whose number does not print as a plain decimal, exactly then refused |
| `Resolve.ExponentIsRefusedOnReentry` | packages/control/src/targets.ts:135-194 | The exception is real: a knob accepts 0.0000001, stores 1e-7, and refuses that text |
| `Targets.ParseFormat` | packages/control/src/targets.ts:73-131 | Every settable target's address parses back to it exactly when it fits the length limit and no entry id spells the same text |
| `Targets.FormatParse` | packages/control/src/targets.ts:73-131 | An accepted address formats back to its trimmed input |
| `Targets.FormatInjective` | packages/control/src/targets.ts:122-131 | Addresses are injective, dotted policy ids included |
| `Targets.AllTargets` | packages/control/src/targets.ts:197-213 | The nested loops list every settable target exactly once |
| `Targets.EntryTargets` | packages/control/src/targets.ts:197-213 | One entry's targets, each once |
| `Views.StageOverrides` | packages/control/src/views.ts:132-177 | Every known slice that has an override row, once each, with the rank that slice resolves to |
| `Views.KnobViews` | packages/control/src/views.ts:105-118 | Every knob of the entry with the number it resolves to |
| `Views.ReadGateView` | packages/control/src/views.ts:247-280 | The gate's mode, knobs, policies and overrides are those of the stored state, garbage included |
| `Views.GateDeterminesSlices` | packages/control/src/views.ts:247-280 | For every combination of known dimension values, one unnarrowed gate read gives the rank a narrowed read would; for unknown ones it can only be higher |
| `RegistryExample.SmallIsWellFormed` | packages/control/src/registry.test.ts:33-80 | The demands the proofs make of a registry can be met |
| `RegistryExample.SmallHidesNothing` | packages/control/src/registry.test.ts:33-56 | So can the demand that no entry id spells a knob's address |
| `SqlScan.TokenizeReads` | packages/db/src/fixes.ts:165-239 | Every text has a reading in the declarative token grammar, and the scanner finds one: its tokens spell the text and each may stand where it stands |
| `SqlScan.ReadingIsUnique` | packages/db/src/fixes.ts:165-239 | No text has a second reading |
| `SqlScan.TagIsFound` | packages/db/src/fixes.ts:141-153 | The delimiter pattern matches exactly where the grammar says a dollar-quote delimiter stands |
| `SqlScan.FoundTagIsClosed` | packages/db/src/fixes.ts:222-226 | A dollar body runs to the first copy of its own tag, whatever lies between |
| `SqlCode.SkipComment` | packages/db/src/fixes.ts:182-196 | The depth counter ends a block comment at the mark that closes it, nested ones included, or with the text |
| `SqlCode.SkipQuoted` | packages/db/src/fixes.ts:197-221 | The quote loop ends at the closing quote, with doubled quotes and backslash pairs skipped, or with the text |
| `SqlCode.ScanSql` | packages/db/src/fixes.ts:165-239 | The scan loop returns exactly the code and the non-blank statements of the text's one reading, recursing into dollar bodies |
| `SqlCode.StatementsRejoin` | packages/db/src/fixes.ts:229-238 | The unfiltered statements joined by semicolons are the text with comments blanked, strings emptied and every dollar body one blank |
| `SqlBlank.BlankedTextIsUnseen` | packages/db/src/fixes.ts:155-164 | Rewrite any comments and plain strings in place, at every dollar depth: the scanner reads the rewritten tokens back and returns the same code and the same statements |
| `SqlBlank.StillReading` | packages/db/src/fixes.ts:165-239 | Such a rewriting of a reading is a reading |
| `SqlBlank.SameTagAhead` | packages/db/src/fixes.ts:141-153 | No such rewriting makes or unmakes a dollar-quote delimiter |
| `FixLint.RunsAreWords` | packages/db/src/fixes.ts:117-126 | Listing the runs of word characters finds exactly the whole words that stand in the code, in any case |
| `FixLint.LintFixSql` | packages/db/src/fixes.ts:104-139 | The list of problems holds exactly what is wrong with the file, and is empty exactly when it is accepted |
| `FixDepth.WordsAtEveryLevel` | packages/db/src/fixes.ts:117-126 | A word stands in the flat code exactly when it stands outside comments and literals at some dollar-quote depth |
| `FixDepth.CharsAtEveryLevel` | packages/db/src/fixes.ts:127-137 | So does a character other than a blank |
| `FixDepth.MarksAtEveryLevel` | packages/db/src/fixes.ts:132-134 | So does a U& escape |
| `FixDepth.AcceptedHidesNothing` | packages/db/src/fixes.ts:104-139 | An accepted file has, at every dollar-quote depth, no forbidden word, no trace of the record table, no stray dollar sign, no U& escape and no backslash outside an E string; and no top-level statement starts transaction control |
| `FixDepth.VerdictIgnoresBlanked` | packages/db/src/fixes.ts:104-139 | Every complaint but the missing preview depends only on what is outside comments and plain strings |
| `FixFiles.NumbersAreRight` | packages/db/src/fixes.ts:92-99 | The gap, duplicate and zero checks find nothing exactly when the sorted numbers are 1..N |
| `FixFiles.ParseFixes` | packages/db/src/fixes.ts:75-101 | Nothing is reported exactly when every file is well named and acceptable and the numbers are 1..N; the fixes are the well-named files, sorted |
| `FixFiles.CheckNumbers` | packages/db/src/fixes.ts:92-99 | The numbering loop reports nothing exactly for 1..N |
| `FixRunner.AppliedOnceInOrder` | packages/db/src/fixes.ts:273-326 | Over any runs, concurrent or not, with any query failing and any COMMIT lost, dropped or settled later: the committed records are always ids 1..k with their files' hashes, and the data is those fixes applied once each in order |
| `FixRunner.StepKeeps` | packages/db/src/fixes.ts:300-323 | Every query of every runner keeps it; at most one transaction is past its insert, and it ran the next fix on the current data |
| `FixRunner.CommittedStays` | packages/db/src/fixes.ts:300-323 | What is committed is never undone |
| `FixRunner.AppendOnly` | packages/db/src/fixes.ts:278-297 | With an append-only file list, what is committed is a prefix of that list |
| `FixRunner.ReportsAreTrue` | packages/db/src/fixes.ts:300-323 | A fix reported as applied was committed by that runner; one reported as failed was not, and no transaction of that runner for it is still in doubt |
| `FixClient.ApplyPendingFixes` | packages/db/src/fixes.ts:273-326 | The loop over the fixes, query by query, with any number of events of any other runners between two queries, is a run of that system; only its last outcome can be a failure |
| `FixClient.Connection.ApplyFix` | packages/db/src/fixes.ts:300-323 | BEGIN, the fix, its record and COMMIT: the report says what the transaction came to |
| `FixClient.NoFailureMeansAll` | packages/db/src/fixes.ts:300-325 | A run without a failure leaves every one of its fixes committed |
| `FixClient.ReportsHold` | packages/db/src/fixes.ts:300-325 | Among any other runners: what the run reports as applied is committed by its own transaction, and whatever its transactions committed it reported as applied or unconfirmed |
| `ProbePool.EverySchedule` | packages/discovery/src/probe.ts:173-275 | Under every schedule of the workers: in-flight per host equals the workers between acquire and release and stays within its cap, two starts on a host are at least the minimum interval apart, and each index is drawn once and answered in its own place |
| `ProbePool.FinishedBatch` | packages/discovery/src/probe.ts:222-275 | A finished batch has each result at its candidate's index, no slot held, and a hole only if some worker found the deadline passed |
| `ProbePool.AnswersStay` | packages/discovery/src/probe.ts:241-270 | A result once written is never overwritten |
| `ProbePool.ThrottleKept` | packages/discovery/src/probe.ts:181-201 | Every step keeps the throttle's count equal to the workers holding that host, and within the cap |
| `ProbePool.HostThrottle.TryAcquire` | packages/discovery/src/probe.ts:181-191 | One poll: granted exactly when under the cap and the interval has passed, and then counted and stamped |
| `ProbePool.HostThrottle.Release` | packages/discovery/src/probe.ts:198-201 | Gives the slot back, never below zero |
| `ProbePool.Batch.Draw` | packages/discovery/src/probe.ts:243-252 | Takes the next index; a candidate no request can be built for is answered as inconclusive |
| `ProbePool.Batch.Poll` | packages/discovery/src/probe.ts:252-252 | A worker's poll for its host's slot |
| `ProbePool.Batch.CheckDeadline` | packages/discovery/src/probe.ts:254-255 | Past the deadline the worker gives the slot back and stops, leaving its index |
| `ProbePool.Batch.Finish` | packages/discovery/src/probe.ts:256-268 | The result, or the inconclusive one when the probe threw, and the slot given back either way |
| `ProbeFetch.ProbeFetch` | packages/discovery/src/probe.ts:58-113 | The answer is what the last attempt met; every earlier attempt met something worth retrying, the last did not or could not be, and there are at most maxRetries retries |
| `ProbeFetch.VerdictIsEarned` | packages/discovery/src/probe.ts:121-128 | Only a 404 says absent, only a listing page read says live or empty, and a transient answer says nothing |
| `KeyCache.AnswersAreRecent` | apps/control/src/key-cache.ts:64-106 | With overlapping gets, any clock and any load outcomes: a get that answers uses the key set of a successful load started less than maxStaleMs before, provided ttlMs is at most maxStaleMs |
| `KeyCache.LongFreshnessOutlivesStaleness` | apps/control/src/key-cache.ts:64-78 | And only then: with a longer ttlMs a concrete run answers from keys older than maxStaleMs, because a fresh hit is not checked against it |
| `KeyCache.UnknownIdsAreSpaced` | apps/control/src/key-cache.ts:69-88 | On a clock that does not run back, a load sent for an unknown id on fresh keys starts at least minRefreshMs after every earlier load |
| `KeyCache.FailuresBackOff` | apps/control/src/key-cache.ts:86-106 | With gets one after the other, after any history: after the k-th failure in a row the next load starts at least the k-th wait later, exponential and capped |
| `KeyCache.WindowsAreBounded` | apps/control/src/key-cache.ts:86-106 | So a window holds loads i..j only if it is as long as the waits between them |
| `KeyCache.KeyCache.Ask` | apps/control/src/key-cache.ts:64-73 | get up to its first await: the fresh hit, or whether a load goes out |
| `KeyCache.KeyCache.Settle` | apps/control/src/key-cache.ts:86-106 | A load's outcome on the fields |
| `KeyCache.KeyCache.Answer` | apps/control/src/key-cache.ts:75-84 | get after its load: the key, no such key, or unavailable |
| `Embeddings.ChunkByLimits` | packages/embeddings/src/contract.ts:42-58 | The loop makes the greedy split |
| `Embeddings.GreedySplits` | packages/embeddings/src/contract.ts:37-58 | The chunks are consecutive, non-empty and within both limits unless a single text |
| `Embeddings.SplitsRejoin` | packages/embeddings/src/contract.ts:37-58 | The chunks put end to end are the input |
| `Embeddings.GreedyIsOptimal` | packages/embeddings/src/contract.ts:37-58 | No other split into consecutive chunks under the same limits has fewer chunks |
| `EmbedResponse.PlacedIsComplete` | packages/embeddings/src/contract.ts:113-125 | Sorted rows pass the index check exactly when their indices are 0..n-1 in some order |
| `EmbedResponse.ParseEmbeddingResponse` | packages/embeddings/src/contract.ts:83-134 | Accepted exactly when every row is usable, the count is right and the indices are 0..n-1; then each vector stands at the index the provider gave it |
| `EmbedResponse.Embed` | packages/embeddings/src/embed.ts:39-58 | From success alone: one vector per text, and at place j of chunk k the vector the k-th response indexed to j, whatever order it listed its rows in; token counts added up; refused exactly when some chunk's response does not line up |
| `EmbedResponse.EachTextHasItsVector` | packages/embeddings/src/embed.ts:39-58 | So each text, by its place in its chunk, has the vector its own response indexed to that place |
| `EmbedResponse.FaithfulVectors` | packages/embeddings/src/embed.ts:39-58 | And where the responses gave each text of their chunk its own vector, every text ends up with its own |
| `Zip.FindEocd` | packages/db/src/zip.ts:57-63 | The last end record in the searched tail, or that there is none |
| `Zip.ReadZipEntry` | packages/db/src/zip.ts:15-55 | Reads only inside the buffer, for any bytes, and returns what the first directory entry of the name leads to or the error its malformation gives |
| `Zip.ReturnedIsChecked` | packages/db/src/zip.ts:45-52 | Content returned has the size and the CRC the first central-directory entry of that name records |
| `ZipWriter.RoundTrip` | packages/db/src/zip.ts:15-55 | Reading back an archive written with stored entries and no comment gives the first entry's bytes of any name it holds, and no entry for any other name |
| `ZipWriter.WalkFinds` | packages/db/src/zip.ts:17-35 | Walking the written directory finds the first entry of the name, with the offset of its local part |
| `ZipWriter.ReadBack` | packages/db/src/zip.ts:15-55 | The reader on a written archive |
| `Ndcg.ScoreRanking` | packages/eval/src/metrics.ts:31-57 | The loops compute hits, DCG and IDCG, and leave the undefined ratios undefined |
| `Ndcg.NdcgBound` | packages/eval/src/metrics.ts:31-57 | For a ranking without repeats and any positive falling discount: NDCG is undefined exactly without an ideal hit, lies in [0, 1], and is 1 exactly when the first min(k, relevant) positions are all relevant |
| `Ndcg.DcgIsIdcg` | packages/eval/src/metrics.ts:36-49 | DCG equals IDCG exactly then |
| `Ndcg.MovingUpKeepsNdcg` | packages/eval/src/metrics.ts:31-57 | Moving a relevant id forward past any others never lowers the NDCG at any cutoff |
| `Ndcg.MoveUpIsMove` | packages/eval/src/metrics.ts:31-57 | Moving up is taking the id out and putting it at the earlier place |
| `Ndcg.AssertPermutation` | packages/eval/src/runner.ts:44-59 | Accepts exactly the permutations of the pool |
| `Ndcg.AcceptedIsRankable` | packages/eval/src/dataset.ts:72-88 | Over a validated pool an accepted ranking has no repeats and holds every relevant id |
| `SeedResolve.ResolveSeed` | packages/discovery/src/resolve.ts:65-116 | The nested loops keep the first candidate of each key, in order, and count every drop by reason |
| `SeedResolve.FreshIsDistinct` | packages/discovery/src/resolve.ts:21-30 | No two candidates kept share a key |
| `SeedResolve.LaneMerges` | packages/discovery/src/discover.ts:354-363 | Merging a lane's own firsts into those of the lanes before it gives the firsts of all their records |
| `SeedResolve.ResolveLanes` | packages/discovery/src/discover.ts:330-369 | Over the lanes that fetched: the same candidates, order and drop counts as one pass over their records end to end; every lane name is tallied with the candidates its lanes were the first to give and their failed fetches; only a lane that fails loud ends the run |
| `SeedResolve.CreditsAddUp` | packages/discovery/src/discover.ts:354-369 | Every candidate is credited to exactly one lane: the credits add up to all of them |
| `Discovery.KnownIsRight` | packages/discovery/src/discover.ts:142-147 | A key is known by one of its own rows, an active one wherever there is one |
| `Discovery.Partition` | packages/discovery/src/discover.ts:142-153 | The worklist loop |
| `Discovery.WorklistIsInactive` | packages/discovery/src/discover.ts:136-153 | No worklist key has any active row, a board with only inactive rows is probed under a stored slug, and every candidate without an active row is there |
| `Discovery.ProbeAndUpsert` | packages/discovery/src/discover.ts:208-237 | Every worklist entry is probed into exactly one bucket or skipped; the live ones are counted, and written unless dry |
| `Discovery.ReprobeActive` | packages/discovery/src/discover.ts:244-284 | Every row is reprobed into exactly one of the three id lists or skipped |
| `Discovery.RunDiscovery` | packages/discovery/src/discover.ts:109-205 | Reprobe rows plus worklist equals reprobed plus probed plus skipped, and each total is the sum of its own buckets; a dry run writes nothing |
| `DigestItems.KeptIsRanked` | packages/inngest/src/digest.ts:606-678 | What is kept is the reranked jobs with a usable note, in rerank order, ranked 1..N, each with its score and note |
| `DigestItems.BuildItems` | packages/inngest/src/digest.ts:613-619 | The loop keeps those and counts the others by reason |
| `DigestItems.KeptOrDropped` | packages/inngest/src/digest.ts:613-619 | Every item is kept or dropped with a reason |
| `DigestItems.TerminalEventsSettle` | packages/inngest/src/delivery.ts:41-87 | Polling stops exactly on the events that change the recorded outcome, and a hard bounce always suppresses |
| `DigestRun.AtMostOneEmail` | packages/inngest/src/delivery.ts:104-157 | Over any runs and reruns of one user's digest for one run, with any step body crashing anywhere and executed again: at most one email is ever accepted |
| `DigestRun.FinishedLeavesOneRow` | packages/inngest/src/digest.ts:366-732 | A run that finishes past the load gate leaves exactly one digest row: the 0-item record, or what is left of the items it carried, recorded as sent when it was emailed |
| `DigestRun.ItemsAreChosen` | packages/inngest/src/digest.ts:606-678 | The items a run carries past persist are those its own choosing event made of that event's batch and reranked jobs, and it carried no others since |
| `DigestRun.FinishedHoldsTheChosen` | packages/inngest/src/digest.ts:606-732 | A run that finishes with a digest leaves the row holding its own reranked jobs with a usable note of its own batch, in rerank order, ranked 1..N, less only those a probe of that run reported dead |
| `DigestRun.SentStays` | packages/inngest/src/digest.ts:606-612 | A digest recorded as sent keeps its row, items and email whatever happens afterwards, reruns included |
| `DigestRun.StepKeeps` | packages/inngest/src/digest.ts:366-732 | Every statement, crash, retry exhaustion and rerun keeps the row, the send key and the step in agreement |
| `DigestRun.RecountMatches` | packages/inngest/src/probe.ts:144-193 | The probe's recount is the number of items left exactly when no item's job was pruned meanwhile |
| `DigestRun.PrunedRunMiscounts` | packages/inngest/src/probe.ts:144-193 | In any first run where some but not all kept jobs are pruned before a probe that finds nothing dead, every item stays and the count misses exactly the pruned ones |
| `DigestRun.TwoJobsOnePruned` | packages/inngest/src/probe.ts:144-193 | Such a run: two items stay, counted as one |

## Left out

- The registry is fixed during a run: a deployment that changes it while requests are in flight is not modelled. One
  between runs is: a run starts from any tables.
- Refinement.CommitIsAtomic: requires proposals' addresses without white space around them, as every filing writes
  them; a row put in by hand with such an address names one state row and guards another. The same holds of
  `Refinement.AuditTrail` and `Lifecycle.ApprovalStartsFromTheProposed`; the ratchet does not need it.
- `NothingShadowed` is required of a registry beside `WellFormed`: no entry id spells a knob's address. The source's
  tests do not pin it, its constants satisfy it; `Targets.ParseFormat` says exactly what happens without it.
- Targets.ParseFormat: lengths count characters; the source counts UTF-16 units, which differ outside the basic plane.
- The state table's `updated_at` and `updated_by` columns, the re-read of a proposal for its reply, listings, run
  records, cost statements, HTTP routing, identity checks and pages: they only add easy members or foreign crypto.
- Refinement.AuditTrail: covers runs without writes by hand; such a write is an event of the runs, and the ratchet
  theorems count it as the owner's.
- D1, SQLite and Postgres as such: a batch or a statement is one atomic transition on maps and sequences.
- Numbers: doubles are reals under the laws `Numerics.Lawful` states, number printing is a parameter; clocks are
  integers; the NDCG discount is any positive falling function, and scores are reals without rounding.
- SqlScan.TokenizeReads: characters are code points; the source indexes UTF-16 units, which only matters inside a
  surrogate pair and those are identifier characters either way.
- The texts of error messages and the order in which the linter lists its complaints.
- FixFiles.ParseFixes: says the fixes are sorted by number; the order of two fixes with one number is left open, since
  such a set is refused.
- FixRunner.AppliedOnceInOrder: the fixes' data is what only fixes write; a fix's SQL is a function of that data,
  which is what the lint's ban on transaction control and on the record table buys.
- Reading the fixes directory, the sha-256 itself, RAISE notices and the report text.
- ProbePool.Batch.Poll: the sleep between two polls is not modelled, so neither is progress; a host that never frees a
  slot is a run that does not finish.
- ProbeFetch.ProbeFetch: streaming a listing page is one answer; sleeping between attempts is not modelled. The
  adapters are parameters.
- KeyCache.FailuresBackOff: holds for gets one after the other. Overlapping gets each spend their own load, so failures
  that overlap are counted apart and the spacing does not hold between them.
- EmbedResponse.ParseEmbeddingResponse: an index is a finite number; infinities, which the source refuses at the index
  check, are not representable.
- The token estimate of a text is a parameter; the byte encoding behind it is not modelled.
- Zip.ReadZipEntry: inflate, CRC-32 and UTF-8 decoding are parameters.
- Aggregating NDCG over examples, report paths and formatting.
- Discovery.RunDiscovery: the staleness sweep, the board-death closing and the run row are left out; the two probe
  batches are parameters, about which `ProbePool.FinishedBatch` speaks.
- DigestRun.AtMostOneEmail: a dashboard rerun between an accepted send and its record is left out, and so is a retry
  after the provider has forgotten the send key (24 hours); either could send a second email.
- DigestRun.FinishedLeavesOneRow: retrieval, rerank and the synthesis batch are the parameters of one event each, since
  they do not touch the digests table; the orchestrator's fan-out, the cadence stamps and the batch polling are left
  out. Two executions of one step body do not overlap.
- The ATS adapters, ingestion, retrieval, rerank, mail parsing, statements, backups, role setup and command lines.
