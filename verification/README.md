# Personality machine: a verified model

This project models the state-bearing logic of the personality-machine server, SDK and
client in Dafny and proves how it behaves over every input, every run and, where calls await
the database, every interleaving of what runs between two awaits. Database tables are maps,
browser buffers are sequences and arrays, clocks are parameters, and each SQL statement is one
step. Code that works by changing things is written as classes and methods, each tied to a
function of its old state; the properties are lemmas about those functions, their runs, or
invariants every method keeps.

| file | what it models |
|---|---|
| `text.dfy`, `counting.dfy`, `numerals.dfy`, `runs.dfy` | splitting, joining and trimming strings; sizes of sets; decimal numerals; runs of a state machine |
| `sse.dfy` | the SDK's streaming event parsers |
| `json.dfy`, `profile.dfy`, `effects.dfy` | JSON merge patch, `jsonb` operators, and the two executors of profile effects |
| `deepmerge.dfy`, `pydict.dfy` | the deep merge of companion configs, on values and on the Python heap |
| `jobs.dfy` | the jobs table, its repository, the Modal poller, and their interleavings |
| `idle.dfy` | idle triggers |
| `cache.dfy`, `behaviors.dfy`, `behavior_cache.dfy`, `history.dfy` | the TTL cache and its two clients: behavior links and message history |
| `orchestrator.dfy` | layers run one by one or under `asyncio.gather` |
| `limiter.dfy` | the coalescing of API-key usage updates |
| `mic.dfy`, `audio.dfy`, `naming.dfy` | microphone repacking, playback scheduling, unique test names |

Run `dafny verify dfyconfig.toml` in this directory.

## Where the code and its description part

- **`patch_profile` is not JSON merge patch.** Its docstring, the effect payloads and a
  migration name RFC 7396, but the statement is `profile || $1`, which replaces whole
  top-level keys. `Json.ConcatIsMergePatch` and `Profile.PatchIsMergePatch` give the exact
  condition under which the two agree, `Profile.SiblingLost` an input where they do not, and
  `Effects.LastWriterOwnsTopKey` what a run of effects leaves instead.
- **A delete effect run after the turn does not delete.** It stores a null
  (`Profile.PostTurnDeleteStoresNull`). The same effect in the Modal worker does delete.
- **The two executors disagree** on one and the same set effect unless nothing lives beside the
  written path and, if the value is null, a null was there already (`Profile.ExecutorsAgree`).
- **Setting null in the Modal worker fails.** The driver sends SQL NULL, `jsonb_set` returns
  NULL, and the column is NOT NULL; parents already created stay (`Effects.RelationshipRow.ModalSet`).
- **Arrays on a path are stepped into, not replaced.** The Modal worker's `jsonb_set` takes the
  step as an index: a step that is none is an SQL error, which changes nothing
  (`Profile.ErrorsComeFirst`), and an index further past an end than the next element adds an
  element there, so that the value is not found at its path (`Profile.WriteFetch`).
- **The poller voids the retry limit.** Its claim does not count an attempt, so poll, fail and
  requeue of a behavior job can repeat for ever (`Jobs.PollerRetriesForever`). Jobs of the types
  that neither the poller nor ingestion reports touch change status at most
  4 * max_attempts - 1 times, a bound that is reached, if callers complete and fail only jobs
  they hold, and only they are bounded (`Jobs.TypeDecidesBound`, `Jobs.BudgetIsReached`). No
  statement checks what callers hold: failing and requeueing a pending job repeats for ever (`Jobs.FailRequeueForever`).
- **`create_completed_job` documents a status "timeout"** that the table's CHECK refuses, and
  accepts "pending", which makes a job to be run.
- **A pending row is below `max_attempts` only if that is positive.** The model's bound is
  therefore `max(1, max_attempts)` claims.
- **Link changes leave cache entries behind.** A companion-level change does not invalidate the
  entries of its relationships; each stays right exactly when its query sees nothing of the
  change (`BehaviorCache.CompanionMutationExact`). Deletes that cascade to links, of a behavior,
  a relationship or a companion, and `update_behavior` invalidate nothing; an entry stays right
  exactly when it holds no link that goes, or none with other code
  (`BehaviorCache.CascadeExact`, `BehaviorCache.RewriteExact`).
- **A query can overwrite an invalidation.** Its answer is cached after an await. If a mutation
  runs in between, the entry, with a relationship or without, is right exactly when the query
  sees nothing of what the mutation did: each link it touched is in scope with the same row
  before and after, or in neither, or is a default behind an override
  (`BehaviorCache.MutationDuringFetch`). Every cached answer was right at some moment less than
  one lifetime and one fetch ago (`BehaviorCache.StalenessIsBounded`).
- **No TTL bounds a gap in a cached history.** A fetch that is cached after an insert it missed
  has been completed, or after a batch it missed has invalidated, leaves an entry without those
  messages, and every later append renews its lifetime (`History.StoreExactly`,
  `History.GapOutlivesTtl`); an append that comes before that of an earlier message leaves a gap
  too, and the earlier one then follows out of order (`History.AppendExactly`,
  `History.CrossedAppendsBreak`); and `delete_conversation` leaves the cache alone
  (`History.DropExactly`). Each step keeps a cached history whole exactly when it does none of
  this (`History.StepKeepsExactly`).
- **A pending action or behavior that its schema rejects** is an error of its layer in the
  sequential branch, which keeps what it had collected, and escapes the parallel one, which
  leaves no plan (`Orchestrator.RunLayers`, `Orchestrator.BranchesAgree`).
- **Filtering on eligibility before ranking** lets an eligible default reappear behind an
  ineligible override (`Behaviors.FilterCommutesWithRanking`).
- **Combining config patches first is not always the same as applying them in turn**
  (`DeepMerge.MergeAssociative`, with the exact condition).

## Model

| member | source | states |
|---|---|---|
| Sse.SubscribeTextStream | sdk/src/lib/sse.ts:101-207 | for every chunking of a text there is one event for each part that ends at a leftmost blank line, in order, each with the meaning of its block, and the buffer keeps only the unterminated tail; of encoded frames each arrives, with its parsed payload, and nothing stays behind |
| Sse.ParseTextBlock | sdk/src/lib/sse.ts:116-207 | a block means its last event line, its last id line and all its data lines joined: the payload is what the parser makes of a non-empty text, and the empty object if there is no text or it does not parse; a typeless block is a delta without id, an unknown type a delta with it |
| Sse.SubscribeJobEvents | sdk/src/lib/sse.ts:27-50 | for every chunking exactly the data lines that parse, of all terminated blocks, are delivered in order |
| Sse.FeedMore | sdk/src/lib/sse.ts:106-114 | parsing what arrived, then the rest behind the kept tail, is parsing all of it, separators that straddle chunks included |
| Sse.FindBlankLeftmost | sdk/src/lib/sse.ts:112-112 | the separator search finds the leftmost occurrence, and fails only if there is none |
| Sse.BlocksRejoin | sdk/src/lib/sse.ts:112-114 | the blocks with their separators and the tail are the text received, and the tail holds no separator |
| Sse.BlocksUnique | sdk/src/lib/sse.ts:112-114 | those properties determine the blocks and the tail |
| Sse.RoundTrip | server/app/routers/context_engine_testing.py:155-159 | any list of one-line-field frames, encoded and parsed, gives one event a frame with trimmed fields, and nothing is left in the buffer |
| Sse.DeliveredExactly | sdk/src/lib/sse.ts:122-141 | a frame of a known type arrives with its own type; with its own id exactly when that has no white space at its ends, and with its own data text exactly when no data line has; then its payload is what the parser makes of that text, or the empty object |
| Sse.ServerSseIsEncode | server/app/routers/v2/messages.py:77-78 | what the servers write is the one-data-line case of that encoding |
| Text.JoinOfSplit | server/app/context/behavior_context.py:82-82 | splitting loses nothing and its parts are free of the separator |
| Text.SplitOfJoin | server/app/context/behavior_context.py:82-82 | joining separator-free parts and splitting gives them back |
| Text.TrimProjects | sdk/src/lib/sse.ts:121-127 | trimming cuts white space off the two ends and nothing else, leaves exactly the strings without any there alone, and empties only blank ones |
| Json.ConcatIsMergePatch | server/app/repositories/relationship_repository.py:394-411 | the `\|\|` of `patch_profile` is the merge patch it is named after exactly when every patched key is non-null and absorbs the old value |
| Json.MergeReplaces | server/app/repositories/relationship_repository.py:394-411 | a merge patch replaces its target outright exactly when it holds no null and no key of the target is missing from it, at any depth |
| Json.MergeNestRead | server/app/context/behavior_context.py:135-136 | merge-patching one path with a scalar or array is read back at that path |
| Profile.IteratedSetIsMergePatch | server/app/context/modal_behavior_executor.py:751-815 | for every object and path the parent-creating UPDATEs followed by `jsonb_set` are the merge patch of the path exactly when no non-object stands on it and the value absorbs what it replaces; read back through objects exactly when none stands there; and paths neither above nor below keep theirs, arrays on the way or not |
| Profile.IteratedSetIsWrite | server/app/context/modal_behavior_executor.py:777-815 | the statement sequence is one walk that creates missing parents, steps into objects and arrays, stops at scalars, and raises where a statement does |
| Profile.ErrorsComeFirst | server/app/context/modal_behavior_executor.py:777-815 | when a statement of the sequence raises an SQL error, those before it have changed nothing |
| Profile.WriteFetch | server/app/context/modal_behavior_executor.py:777-815 | seen by `#>`, which steps into arrays, the value is read back exactly when the path stays within containers and no index points further than the next element |
| Profile.WriteRead | server/app/context/modal_behavior_executor.py:797-815 | through objects the write is read back if the path is open and nothing is read there otherwise; without arrays a blocked write leaves the document as it was |
| Profile.WriteFrame | server/app/context/modal_behavior_executor.py:777-815 | every path neither above nor below the written one keeps its value |
| Profile.DeleteIsMergePatch | server/app/context/modal_behavior_executor.py:724-750 | the Modal delete is the merge patch with a null at the path exactly when all parents exist |
| Profile.DeleteRead | server/app/context/modal_behavior_executor.py:724-750 | a deleted path reads as absent; without an array on it nothing raises and deleting an absent path changes nothing |
| Profile.DeleteFrame | server/app/context/modal_behavior_executor.py:724-750 | deleting keeps every incomparable path |
| Profile.PatchIsMergePatch | server/app/context/post_turn_executor.py:143-158 | the post-turn patch of one path is the documented merge patch exactly when the value is not null and nothing else lives under the path's first key |
| Profile.ExecutorsAgree | server/app/context/post_turn_executor.py:143-158 | what a set effect leaves after the turn and what it leaves in the Modal worker, failures included, agree exactly when nothing lives beside the path and a null value was there already |
| Profile.PostTurnDeleteStoresNull | server/app/context/behavior_context.py:152-175 | a delete effect run after the turn leaves a readable null and never equals the Modal delete |
| Profile.SiblingLost | server/app/repositories/relationship_repository.py:394-411 | a concrete profile that loses a sibling key which a merge patch would keep |
| Profile.IndexReads | server/app/context/modal_behavior_executor.py:724-815 | a step into an array is a decimal numeral of 32 bits, with a minus sign or not, behind any white space; a word or nothing is none |
| Profile.ArrayPut | server/app/context/modal_behavior_executor.py:797-815 | `jsonb_set` on an array replaces in range, counting from the end below zero, and adds an element at the nearer end out of range |
| Profile.ArrayDrop | server/app/context/modal_behavior_executor.py:724-750 | `#-` on an array removes in range and does nothing out of range |
| Effects.RelationshipRow.ModalSet | server/app/context/modal_behavior_executor.py:751-815 | fails exactly for a null value or an SQL error; the whole new profile and version, unchanged after an error, with the created parents after a null |
| Effects.RelationshipRow.ModalDelete | server/app/context/modal_behavior_executor.py:724-750 | the whole new profile and version after a delete of one-part and longer paths, unchanged after an SQL error |
| Effects.GetNestedValue | server/app/context/behavior_context.py:77-89 | the walk returns the value at the path, the default when a step is missing, and the whole profile, unless empty, for the empty path |
| Effects.PostTurnExecutor.ApplyStatePatch | server/app/context/post_turn_executor.py:122-178 | the outcome is skipped, failed, not found or success as the code branches, and only a success writes: each top-level key of the given patch, or the one path of a key and value, replaces what was there |
| Effects.PatchDataIsPatch | server/app/context/post_turn_executor.py:143-149 | the given patch; without one the one-path document of the key and value; without a key nothing |
| Effects.PostTurnExecutor.Execute | server/app/context/post_turn_executor.py:58-71 | one result an effect, in order, earlier results kept; the profile is the fold of the patches and the version counts the non-empty ones |
| Effects.LastWriterOwnsTopKey | server/app/context/post_turn_executor.py:58-71 | over any run each top-level key is as the last effect touching it left it |
| Effects.SetReplacesTopKey | server/app/context/behavior_context.py:125-150 | a set effect leaves nothing but its own path under its first key |
| Effects.DeleteLeavesNull | server/app/context/behavior_context.py:152-175 | after any run a delete effect leaves a null that is read back |
| DeepMerge.MergeIdempotent | server/app/repositories/companion.py:593-599 | merging the same patch again changes nothing |
| DeepMerge.MergeReadsPatch | server/app/repositories/companion.py:593-599 | every non-object leaf of the patch is read back |
| DeepMerge.MergeKeepsBase | server/app/repositories/companion.py:593-599 | every path the patch does not touch keeps the base's value or absence |
| DeepMerge.MergeAssociative | server/app/repositories/companion.py:593-599 | merging is associative exactly when, wherever a key goes object, non-object, object, the last covers the first |
| DeepMerge.MergeCovered | server/app/repositories/companion.py:593-599 | a patch replaces its base outright exactly when it covers every key of it |
| DeepMerge.RevivalExample | server/app/repositories/companion.py:593-602 | a concrete reset-then-patch where the order of combining matters |
| PyDicts.MergeDict | server/app/repositories/companion.py:593-602 | the base dict becomes the deep merge of both documents in place, and no other dict of either argument is mutated |
| PyDicts.StoresRead | server/app/context/behavior_context.py:77-89 | at every path the dicts that store a document hold what the document holds |
| PyDicts.MergeKey | server/app/repositories/companion.py:594-598 | the recursive case merges into a shallow copy and mutates nothing |
| PyDicts.BuildNestedDict | server/app/context/behavior_context.py:92-105 | the cursor loop builds fresh dicts storing exactly the one-path document |
| Jobs.StepKeepsInv | server/app/repositories/job_repository.py:43-243 | every statement of every worker keeps of every row, whatever the others hold: attempts within the cap, pending rows unclaimed and below it, locked rows still eligible; and every inserted row starts so |
| Jobs.RunsFromEmpty | server/app/repositories/job_repository.py:246-369 | so from the empty table on every row of every run has it, the poller's markers, finished rows and ingestion jobs included |
| Jobs.StepKeepsColumns | server/app/repositories/job_repository.py:91-243 | the claim, start, completion and worker columns of a row keep fitting its status, except for ingestion jobs |
| Jobs.ClaimsAreExclusive | server/app/repositories/job_repository.py:66-88 | in every run, once handed out, by `claim_jobs` or the poller, a row is handed out again only after a requeue or a reclaim at some step in between has returned it to pending |
| Jobs.OnlyRequeueOrReclaimReturns | server/app/repositories/job_repository.py:199-215 | only a requeue or a reclaim returns a row to pending |
| Jobs.HandsExactly | server/app/repositories/job_repository.py:66-73 | the second half of a claim takes a pending row to claimed for `claim_jobs`, and to running for the poller, exactly if it holds it |
| Jobs.SelectForUpdate | server/app/repositories/job_repository.py:74-82 | the locking SELECT takes distinct, pending, unlocked, due rows of a claimed type, up to the limit; of two taken rows, and of a taken and a passed-over one, the first has no `run_at` or no later one (for `claim_jobs`), then no lower priority, then no later creation time |
| Jobs.BatchIsFirstLimit | server/app/repositories/job_repository.py:74-82 | without ties a row is in the batch exactly when fewer than `limit` available rows come before it |
| Jobs.BatchInOrder | server/app/repositories/job_repository.py:74-82 | the legal batches are exactly those described in columns alone: who qualifies, and who is no later than whom |
| Jobs.ClaimIsLockThenUpdate | server/app/repositories/job_repository.py:66-88 | the two halves of a claim together hand out exactly the batch and leave no lock |
| Jobs.AttemptsCountClaims | server/app/repositories/job_repository.py:66-73 | over any run `attempts` grows by the number of repository claims of that row |
| Jobs.ClaimsAreBounded | server/app/repositories/job_repository.py:199-215 | in any run `claim_jobs` wins a job at most max(1, max_attempts) times |
| Jobs.PolledRowsAreNotReclaimed | server/app/repositories/job_repository.py:486-500 | in every run a row started by the poller is reclaimed only after some step in between claims it for a repository worker |
| Jobs.RepositoryRetriesTerminate | server/app/repositories/job_repository.py:43-243 | a job whose type is neither the poller's nor ingestion changes status at most `Budget` times in any run in which callers complete and fail only what they hold, whatever the poller does |
| Jobs.RetriesTerminate | server/app/repositories/job_repository.py:43-243 | the same for any job that the poller and ingestion reports happen to leave alone |
| Jobs.FinishesHeldExactly | server/app/repositories/job_repository.py:109-196 | what is asked of the callers, said of every step of a run: it completes or fails the job only while that is claimed or running |
| Jobs.TypeDecidesBound | server/app/context/modal_behavior_executor.py:1092-1106 | for an unlocked pending job below its limit, whatever else the table holds, every such run keeps to the budget exactly when its type is neither the poller's nor ingestion |
| Jobs.FailRequeueForever | server/app/repositories/job_repository.py:150-215 | without that discipline a pending job can change status any number of times and never be claimed |
| Jobs.BudgetIsReached | server/app/repositories/job_repository.py:43-243 | that bound, 4 * max_attempts - 1 for a new job, is attained |
| Jobs.PollerRetriesForever | server/app/context/modal_behavior_executor.py:1089-1109 | with the poller a job can change status any number of times |
| Jobs.JobTable.ClaimJobs | server/app/context/modal_behavior_executor.py:1089-1109 | a claim of either kind takes rows in that order, sets status, worker, claim or start time and the attempts of exactly those rows, field by field, and takes no row out of its retry limit |
| Jobs.JobTable.UpdateJob | server/app/repositories/job_repository.py:91-243 | start, complete, fail, requeue, cancel and ingestion reports each change exactly the columns of the one row their WHERE clause matches, the requeue's `run_at` and error included, or nothing |
| Jobs.JobTable.ReclaimStuckJobs | server/app/repositories/job_repository.py:467-500 | exactly the claimed and running rows below their limit whose claim is older than the timeout become pending again, without claim, start or worker; no other row changes |
| Jobs.JobTable.Enqueue | server/app/repositories/job_repository.py:246-308 | one pending row is added with the given schedule and a budget of 4 * max_attempts - 1 |
| Jobs.JobTable.CreateCompletedJob | server/app/repositories/job_repository.py:311-369 | exactly the statuses of the CHECK constraint insert a row, so the documented "timeout" is refused, and only "pending" makes one to be claimed |
| Jobs.JobTable.MarkCronCheck | server/app/context/modal_behavior_executor.py:1077-1082 | the marker row of the poller is completed without a completion time, and within its retry limit |
| IdleTriggers.IdleStore.EvaluateIdleTriggers | server/app/context/modal_behavior_executor.py:1344-1492 | every new job belongs to a link whose first usable idle trigger gives a non-zero number of minutes, in whose scope the relationship's latest message plus those minutes is before now; every relationship in scope that is silent so long, of at most 100, has a job after that message; and a message lies between any two jobs of one relationship and behavior; every job follows a silence unless a negative threshold meets a message of the same instant |
| IdleTriggers.IdleStore.FireLink | server/app/context/modal_behavior_executor.py:1444-1484 | the check-and-insert loop of one link |
| IdleTriggers.IdleStore.SelectIdle | server/app/context/modal_behavior_executor.py:1405-1441 | all relationships in scope whose latest message plus the threshold is before now, or some 100 of them when there are more |
| IdleTriggers.MinutesThreshold | server/app/context/modal_behavior_executor.py:1386-1400 | the threshold is that of the first idle object, or of the first idle text with a number, whichever comes first in the list |
| IdleTriggers.JobsBoundedByMessages | server/app/context/modal_behavior_executor.py:1447-1463 | the idle jobs of one relationship and behavior, each made after a silence, never outnumber its messages |
| IdleTriggers.RepeatIsQuiet | server/app/context/modal_behavior_executor.py:1447-1484 | a second poll at the same instant adds nothing exactly when the pair has fired or its last message is in the past |
| Microphone.MicrophoneProcessor.Process | client/hooks/useMicStream.ts:110-157 | after any calls the posted buffers are the consecutive full blocks of the filtered, clamped, quantised stream, tagged with the current frame |
| Microphone.MicrophoneProcessor.PostedAreBlocks | client/hooks/useMicStream.ts:128-153 | samples heard = posted buffers * buffer size + buffer index |
| Microphone.MicrophoneProcessor.Store | client/hooks/useMicStream.ts:128-153 | storing a sample extends what is posted or waiting by its quantised value and keeps the index below the size |
| Microphone.QuantiseBound | client/hooks/useMicStream.ts:134-143 | quantised values lie within 31129, the clamp at 0.95 of 32767, and within one half of the clamped, scaled sample |
| Microphone.StreamRecurrence | client/hooks/useMicStream.ts:118-143 | each sample moves the offset by a two-hundredth towards it, and the posted value is quantised from 0.95 of what is left and 0.05 of the value before |
| Microphone.FilterStable | client/hooks/useMicStream.ts:118-126 | the filter at most doubles the peak of its input |
| Microphone.ConstantFades | client/hooks/useMicStream.ts:120-122 | the offset filter removes a constant: after n samples only 0.995 ^ n of it is left |
| Microphone.BlocksUnique | client/hooks/useMicStream.ts:128-153 | full blocks and a shorter rest are the only cut of a stream |
| Orchestrator.RunParallel | server/app/context/orchestrator.py:1000-1028 | for every completion order and every set of failing layers the collected lists are the layers' own messages, effects and pending drafts concatenated in layer order; a rejected pending schema leaves no plan |
| Orchestrator.RunSequential | server/app/context/orchestrator.py:1029-1071 | the loop collects the same lists, goes on after a failure, and of a layer with a rejected schema keeps messages, effects and the drafts before it |
| Orchestrator.CollectedInOrder | server/app/context/orchestrator.py:1000-1071 | those lists are flat maps over the layers, each draft list cut before its first rejected draft |
| Orchestrator.RunGather | server/app/context/orchestrator.py:1316-1341 | whatever the interleaving each slot holds its layer's output, or nothing for a failed one, and each layer's events are complete and in order |
| Orchestrator.RunLayers | server/app/context/orchestrator.py:998-1071 | there is no plan exactly when some layer's rejected schema escapes the parallel branch; any plan holds the layers' messages and effects in layer order, and their drafts up to each layer's first rejected one |
| Orchestrator.BranchesAgree | server/app/context/orchestrator.py:998-1071 | the branches make every layer emit the same exactly when no schema is rejected |
| Orchestrator.LayerBracketed | server/app/context/orchestrator.py:1328-1338 | a layer's events start once, first, end once, last, and hold an error exactly when its `try` failed |
| Cache.CacheManager.Get | server/app/services/cache_manager.py:31-43 | answers the entry until the instant it expires, and drops it then |
| Cache.LastWriteIsAnswered | server/app/services/cache_manager.py:31-55 | over any run of calls a key is answered with a value exactly when some call set it, that call's lifetime, at least zero, has not passed, and no later call set or deleted the key; evictions by reads never show |
| Behaviors.BatchAgreesWithLookup | server/app/repositories/behavior_repository.py:320-383 | the unfiltered batch holds a link for a key exactly when the single lookup returns it |
| Behaviors.FilterCommutesWithRanking | server/app/repositories/behavior_repository.py:479-511 | filtering before ranking is the eligible part of the batch exactly when no eligible default is shadowed |
| Behaviors.RunQuery | server/app/repositories/behavior_repository.py:481-535 | with a relationship one row a key of the enabled, or eligible, rows in scope, an override before a default; without one all defaults in scope |
| Behaviors.QuerySelects | server/app/repositories/behavior_repository.py:481-535 | that is what an answer of the query is: rows in scope, one a key, every row answered for by itself or by an override |
| Behaviors.GetBehaviorForCompanion | server/app/repositories/behavior_repository.py:320-383 | the enabled override of the key and relationship, else its enabled default, else nothing |
| BehaviorCache.AnswersAreCurrent | server/app/repositories/behavior_repository.py:424-565 | over any run of interleaved queries and mutations an answer from the cache is the query's answer now, unless an invalidation is still to come, if no answer is stored after its key has been invalidated for a later mutation and what is exposed stands every change that is not invalidated for it |
| BehaviorCache.StepKeepsFresh | server/app/repositories/behavior_repository.py:424-565 | each step between two awaits keeps that, for every key |
| BehaviorCache.OvertakesExactly | server/app/repositories/behavior_repository.py:424-443 | what counts as too late: an invalidation overtakes exactly the queries of the companion, with its relationship or none, that were answered before its mutation committed |
| BehaviorCache.ChangeKeepsExactly | server/app/repositories/behavior_repository.py:424-443 | of a change of links, mutation or cascade or update, exactly what is exposed must stand it |
| BehaviorCache.MutationDuringFetch | server/app/repositories/behavior_repository.py:469-561 | with any mutation between any query and its `cache.set` the stored entry is current exactly when the query sees none of what was done |
| BehaviorCache.MutationExact | server/app/repositories/behavior_repository.py:720-1044 | of any mutation and any query an answer from before is still one exactly when, of every link created, changed or removed, its row in the query's scope is the same before and after, or it is a default and an override of its key is in scope |
| BehaviorCache.OverrideMutationExact | server/app/repositories/behavior_repository.py:481-511 | the case of an override and a query of its relationship |
| BehaviorCache.MutationKeepsOneLink | server/app/repositories/behavior_repository.py:720-1044 | mutations that the unique index lets through keep one link for each companion, key and relationship, if a key names one behavior |
| BehaviorCache.StalenessIsBounded | server/app/repositories/behavior_repository.py:469-561 | over any run whatever every cached answer was the query's at some moment less than one lifetime and one fetch ago |
| BehaviorCache.BehaviorRepository.GetActiveBehaviors | server/app/repositories/behavior_repository.py:446-565 | an uninterrupted call: the answer is the query's now or recently, and now if what was held for the key was current; it leaves every key as current as before, no call of its own under way, and the clock at its time |
| BehaviorCache.BehaviorRepository.Mutate | server/app/repositories/behavior_repository.py:720-1044 | an uninterrupted link mutation row by row: a create adds just its row, a delete takes just its id or just the rows of its companion, key and relationship, an update sets just its fields; when it succeeds; exactly the entries it must invalidate go; every key but those of a companion-level change's relationships stays current, and no entry gets older |
| BehaviorCache.AppliedRows | server/app/repositories/behavior_repository.py:720-1044 | the links after each kind of mutation, and when it succeeds, in the columns of the rows |
| BehaviorCache.ReachedInvalidated | server/app/repositories/behavior_repository.py:424-443 | an entry goes exactly when a changed row is of its companion and is companion-level with the entry so too, or of its relationship |
| BehaviorCache.MutationKeepsCurrent | server/app/repositories/behavior_repository.py:424-443 | every entry stays current except a companion's relationship entries under a companion-level change |
| BehaviorCache.CompanionMutationExact | server/app/repositories/behavior_repository.py:433-443 | such an entry stays current exactly when, of every default created, changed or removed, an override of its key is in scope or its row in scope is the same before and after |
| BehaviorCache.CompanionMutationLeavesStale | server/app/repositories/behavior_repository.py:433-443 | a concrete entry that goes stale |
| BehaviorCache.CascadeExact | server/app/supabase/migrations/0049_rename_actions_to_behaviors.sql:38-63 | after deleting a behavior, a relationship or a companion an answer of any query is still one exactly when it holds no link that goes with it |
| BehaviorCache.RewriteExact | server/app/repositories/behavior_repository.py:191-266 | after updating a behavior an answer of any query is still one exactly when its links of it have the new code |
| BehaviorCache.BehaviorRepository.DeleteParent | server/app/repositories/behavior_repository.py:269-278 | such a delete removes the links of the behavior, companion or relationship and leaves the cache alone |
| BehaviorCache.BehaviorRepository.UpdateBehavior | server/app/repositories/behavior_repository.py:191-266 | the new code shows in every joined link of the behavior, nothing else changes, and the cache is left alone |
| BehaviorCache.KeyTextInjective | server/app/repositories/behavior_repository.py:413-421 | no two queries share a cache key |
| History.HistoryIsExact | server/app/repositories/conversation.py:37-483 | from an empty store on, over any run of interleaved calls, batches and deletes whose appends, stored fetches and deletes are as the four rows below say, a cached history with no row in flight is an answer of the query now; the only one if times are distinct, and exactly what is stored, in order, if they increase |
| History.StepKeepsExactly | server/app/repositories/conversation.py:37-483 | each step between two awaits keeps an entry a copy of the first rows with all others in flight exactly when it is orderly |
| History.AppendExactly | server/app/repositories/conversation.py:37-56 | appending a message keeps it exactly when the entry ends right before it or with it, or none is live |
| History.DropExactly | server/app/repositories/conversation.py:466-483 | deleting a conversation keeps it exactly when the cache knows nothing of it |
| History.StoreExactly | server/app/repositories/conversation.py:303-317 | caching a fetch keeps it exactly when every row the fetch missed is still in flight |
| History.CrossedAppendsBreak | server/app/repositories/conversation.py:210-275 | two inserts whose appends cross leave a live entry out of order |
| History.GapOutlivesTtl | server/app/repositories/conversation.py:37-56 | a row an entry has missed stays missing, and the entry alive, for as long as appends keep coming |
| History.ConversationStore.AddMessage | server/app/repositories/conversation.py:210-275 | an uninterrupted add: the row is stored, and the cache stays an answer of the query exactly when the message is no older than the last cached one, as any message newer than the stored ones is |
| History.AppendKeepsAnswer | server/app/repositories/conversation.py:37-56 | appending to an ordered answer is an answer exactly when the new row is not older than the last |
| History.AppendCoherent | server/app/repositories/conversation.py:37-56 | the same for the whole cache with expiry and the duplicate check |
| History.AnswerUnique | server/app/repositories/conversation.py:303-313 | with distinct times the query has one answer |
| History.ConversationStore.GetMessages | server/app/repositories/conversation.py:278-319 | what an uninterrupted call returns, cached or fetched, is an answer of the query as of now |
| History.ConversationStore.AddBatch | server/app/repositories/conversation.py:386-417 | all rows are stored, in order, or none, exactly when every conversation exists and the ids are new and distinct; exactly the touched conversations are invalidated |
| History.ConversationStore.DeleteConversation | server/app/repositories/conversation.py:466-483 | the cache stays coherent exactly when it held no copy or the conversation was empty |
| Limiter.StepKeepsInv | server/app/auth.py:57-111 | every interleaved step keeps: one live update a key, recorded times at least a TTL apart |
| Limiter.WindowBound | server/app/auth.py:94-111 | in every run any window of length L holds at most floor(L / TTL) + 1 recorded times of a key |
| Limiter.WindowBoundReached | server/app/auth.py:94-111 | that bound is attained, by calls a TTL apart that each finish before the next |
| Limiter.AtMostOneLive | server/app/auth.py:57-111 | in every run, whatever the TTL, a key has at most one live update |
| Limiter.GrantExactly | server/app/auth.py:94-111 | the locked section grants exactly when no update is live and the call's clock read is a TTL past the last recorded time |
| Limiter.KeyUsage.Schedule | server/app/auth.py:88-111 | the new shared state and the returned flag of one call |
| Playback.AudioPlayer.ScheduleAudioBuffer | client/hooks/useAudioPlayer.tsx:109-149 | a buffer starts between now and half a second later, gaplessly after queued audio, and slots since the last reset or clear stay ordered and disjoint |
| Playback.AudioPlayer.OnEnded | client/hooks/useAudioPlayer.tsx:136-143 | the cursor is dropped only when everything queued has ended, so no overlap can follow |
| Playback.AudioPlayer.ClearQueue | client/hooks/useAudioPlayer.tsx:152-157 | clearing starts a new stretch of slots |
| Naming.GetUniqueName | server/app/repositories/context_engine_test_repository.py:58-101 | the search ends with the desired name or the least number in brackets behind it that is free, all smaller ones being taken, and that number is at most one above the count of matching names |
| Naming.CounterBounded | server/app/repositories/context_engine_test_repository.py:95-101 | while all smaller candidates are taken the counter stays within that bound |
| Naming.NumberedExactly | server/app/repositories/context_engine_test_repository.py:80-93 | the pattern matches exactly the desired name followed by digits in brackets |
| Numerals.DecimalInjective | server/app/repositories/context_engine_test_repository.py:98-98 | different counters give different numerals |
| Numerals.DecimalDigits | server/app/repositories/context_engine_test_repository.py:98-98 | the digits of a number, most significant first |

## Left out

- Effects.RelationshipRow.ModalSet: the UPDATEs of one effect follow each other without another writer of the row in between, and the row exists.
- Microphone.MicrophoneProcessor.Process: samples are reals, so the rounding of `Float32Array` is not modelled, and the buffer size is positive.
- Jobs.JobTable.UpdateJob: complete and fail of a missing id raise in the code after finding no row; the model reports no row.
- Jobs.SelectForUpdate: rows that tie in the ORDER BY may come in any order, as SQL leaves it.
- Behaviors.RunQuery: the final ORDER BY name is not modelled; answers are maps by link id.
- Jobs.StepKeepsInv: an ingestion job is reported running, completed or failed, as its callers do; reported "queued" it would become pending whatever its attempts.
- Jobs.JobTable.MarkCronCheck: the check for a recent marker, and the cron triggers behind it.
- History.HistoryIsExact: inserts come with times later than all stored ones, the rows of one batch in any order among themselves.
- BehaviorCache.MutationDuringFetch: with a relationship, a companion and a relationship have one link for a behavior key, which the unique index gives for behaviors of one project.
- BehaviorCache.BehaviorRepository.GetActiveBehaviors: the cached list is returned by reference in the code; callers that mutate it are not modelled.
- BehaviorCache.KeyTextInjective: identifiers are numbers with decimal text; what matters of a UUID's text is only that it is injective, free of colons and not "none".
- Orchestrator.RunLayers: a layer's reports and outcome do not depend on the order of the others, and event metadata and timings are dropped.
- Cron triggers, which need cron-expression parsing, and the rest of the Modal job execution.
- JSON parsing, UTF-8 decoding and the HTTP side of the streams: parsing is an arbitrary function, chunks are decoded text.
- Session, memory, schedule, webhook and proactive-message effects: plain writes or calls into other services.
- The columns of a job that no statement here decides on: params, scopes, progress counters, `updated_at`.
- The smoothing and dithering of played samples, and the order of keys in Python dicts.
- Clerk and API-key verification, logging, tracing, and plain CRUD queries.
