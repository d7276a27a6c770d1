# Checkpoints, streaming, claims and payments of the node

A Dafny model of the stateful cores of the node, each proved correct over every input, run or
interleaving. The outside world (the S5 store, the marketplace and the payment system, the chain,
the clock, signing and encryption) appears as parameters that may take any value.

| file | what it models | main results |
|---|---|---|
| `Text`, `Harmony`, `HarmonyMessages` | the transcript parser | it reads exactly the printed transcript; parsing normalises any text |
| `LastUserMessages`, `ChatTemplate` | the scan for the last user message; the prompts the node writes | what the scan returns on every text, and exactly when it agrees with the parser; written prompts are read back |
| `Streaming` | token billing against a bounded channel and a cancellable client | message order; "complete" ends are exact; the bill is at most 101 ahead, and that is reached |
| `StorePaths`, `Publisher`, `PublisherRuns`, `PublisherObjects`, `Delta` | buffering, publishing, resuming | no indexed delta is overwritten; publish before proof; no message lost or repeated |
| `Cleanup` | deleting the files of a cancelled session | exactly which deltas cleanup leaves, when it leaves none, and which it can never find |
| `JsonCanonical` | the text that is signed | equal canonical forms exactly for values that differ in member order |
| `RateLimiter` | the sliding window | the pruned list refines the full history |
| `PromptCache` | the two-tier prompt cache | accounting, eviction order, agreement with the puts, the leak of the byte counter |
| `ClaimCounter`, `JobClaim` | concurrent and sequential job claiming | the exact value of the admission counter; filter agrees with action; batches |
| `Monitor` | event polling | at least once; exactly once if and only if no poll failed after sending |
| `Payment` | splits, accumulator, statistics | conservation over every run, with any, an honest and the reference payment system |
| `HealthMetrics` | the running mean | tight error bound below 2^32 checks, and what the mean is beyond |

Code that updates its fields in place is a class or a method with a loop whose contract equates the
new state with a function of the old one; the theorems are about those functions, folded over
sequences of operations (`Run`).

What the code does that a reader of its documentation may not expect, with the condition under
which it does:

- `extract_last_user_message` reports the last text that looks like a user's to it, which is the
  parser's last user message if and only if the two texts are equal (`LastUserAgreesWithParser`). A
  quoted user header, a user turn in a channel, a channel that ends in a start marker and `user`
  or a blank user turn can set them apart (`QuotationMisleads`, `ChannelHidesUser`,
  `ChannelMisleads`, `BlankUserHidesLast`).
- The entries of a checkpoint index are numbered by position if and only if no publish committed
  over an entry left by a failed index upload (`NumberedIffCleanCommits`, `RetryLeavesTwoEntries`).
- A session whose state was lost, used before its index is read, starts again at delta 0
  (`OverwriteIffUnread`, `UnreadStateOccurs`) and replaces its index at the next commit
  (`UnreadSessionStartsOver`). An index that is read before a commit and installed after it
  misnumbers the session (`InstallKeepsIffStillStored`, `EarlyReadMisnumbers`).
- A commit that closes a buffer ending in a message marked partial loses that message
  (`MessagesAreConserved`, `PartialMessageIsLost`).
- Cleanup leaves exactly the deltas whose last index upload failed (`CleanupLeavesUncommitted`);
  those that fell behind the current number stay for good (`OrphansStay`, `OrphanOccurs`). A state
  that is kept over a cleanup publishes indexes whose deltas are gone (`CleanupKeepsIffForgotten`,
  `KeptStateStaysUnbacked`).
- The byte counter of the prompt cache keeps the size of every entry that is replaced, exactly
  (`DriftIsWhatWasReplaced`, `ReplacementLeaks`), so capacity shrinks until a clear
  (`LeakIsLostCapacity`).
- The admission counter loses a slot with every double insert (`TightIffNoDoubles`,
  `LostSlotsStayLost`). With the marketplace of the repository that takes two calls of one job
  under way at once (`TruthfulDoubleInsertNeedsOverlap`): two claims (`TwoClaimsLoseASlot`), or a
  claim and an unclaim (`RaceLosesASlot`).
- `claim_accumulated` forgets the jobs whose claim failed (`AccumulatedClaimIsExactIff`).
- A poll moves the event cursor if and only if every log up to the head parses
  (`CursorMovesIffAllParse`), so a log that never parses stops it for good, and every later poll
  sends the events before it again (`MalformedBlocksTheCursor`, `MalformedRepeats`).

## Model

| member | source | states |
|---|---|---|
| `Harmony.HarmonyIsSeparated` | src/checkpoint/harmony.rs:88-126 | the markers of the format are unbordered and apart, so that none can straddle the edge of a content |
| `Harmony.DecomposePrints` | src/checkpoint/harmony.rs:74-161 | every text whatsoever is the printed form of the well-formed transcript it is read into |
| `Harmony.PrintDecomposes` | src/checkpoint/harmony.rs:74-161 | every well-formed transcript is read back as itself, so reading and printing are inverse |
| `HarmonyMessages.ParseHarmonyMessages` | src/checkpoint/harmony.rs:74-161 | for every text the scanner with its moving position returns one message for each turn that is not blank: its role, its trimmed body, the time stamp, not partial |
| `HarmonyMessages.ParseOfPrint` | src/checkpoint/harmony.rs:74-161 | parsing a printed transcript gives its user and assistant turns, field by field; system blocks and stray markers give none |
| `HarmonyMessages.RoundTrip` | src/checkpoint/harmony.rs:74-161 | messages with nonempty, trimmed contents free of the end marker are parsed back in order: the same roles and contents, one time stamp, not partial |
| `HarmonyMessages.ParseNormalises` | src/checkpoint/harmony.rs:74-161 | for every text, the parsed messages are printable, and printing and parsing them again gives the same roles and contents |
| `LastUserMessages.ExtractLastUserMessage` | src/checkpoint/harmony.rs:29-53 | the scan loop returns the trimmed content after the last user header it meets, or the trimmed prompt |
| `LastUserMessages.LastUserOfPrint` | src/checkpoint/harmony.rs:29-53 | on every well-formed transcript, with system blocks, channels, strays and open ends, the scan returns the last text shown to it: the body of a turn it takes for a user's, or what another piece quotes after a user header |
| `LastUserMessages.LastUserAgreesWithParser` | src/checkpoint/harmony.rs:29-161 | for every text whatsoever: where the parser finds a user message, the scan returns the last of them if and only if that is the last text shown to it; and what the scan returns in all other cases |
| `LastUserMessages.PlainTextsAgree` | src/checkpoint/harmony.rs:29-161 | the two agree on every text whose user turns have no channel and are not blank and in which nothing else carries a user header |
| `LastUserMessages.QuotationMisleads` | src/checkpoint/harmony.rs:29-53 | a reply that begins with a quoted user header: the scan returns the quotation |
| `LastUserMessages.ChannelMisleads` | src/checkpoint/harmony.rs:29-53 | a reply whose channel ends in a start marker and `user`: the scan returns the reply |
| `LastUserMessages.ChannelHidesUser` | src/checkpoint/harmony.rs:29-53 | a user turn in any other channel: the scan returns the user message before it |
| `LastUserMessages.BlankUserHidesLast` | src/checkpoint/harmony.rs:29-53 | a blank user turn last: the parser passes over it and the scan returns the whole prompt |
| `LastUserMessages.HarmonyTextsDisagree` | src/checkpoint/harmony.rs:29-53 | concrete texts in the actual format for the first and the third |
| `ChatTemplate.FormatHarmony` | src/inference/chat_template.rs:177-215 | the loop writes the system block, a block or turn for each message and the open turn |
| `ChatTemplate.SystemComesFirst` | src/inference/chat_template.rs:181-191 | a standard system block comes first exactly when the conversation has no system message, and the conversation follows whole |
| `ChatTemplate.WrittenPromptIsRead` | src/inference/chat_template.rs:177-215 | parsing a prompt the node wrote gives the roles and trimmed contents of its user and assistant messages that are not blank, in order, if no content holds an end marker |
| `ChatTemplate.WrittenPromptShowsLastUser` | src/inference/chat_template.rs:177-215 | and the scan gives the last user message, if no other message carries a user header and no user message is blank |
| `ChatTemplate.HarmonyTemplate` | src/inference/chat_template.rs:192-213 | the markers, the line break and the final channel satisfy what those proofs use |
| `Streaming.EveryRunIsSafe` | src/api/server.rs:1001-1124 | in every interleaving what was pushed is consumed, queued or dropped in order, each billed token is accounted for, and the text sent is the text generated |
| `Streaming.BillIsAheadByAtMost101` | src/api/server.rs:1001-1124 | at every moment of every run the bill is 0 to 101 tokens ahead of the client's count, and zero without a job id |
| `Streaming.SentInOrder` | src/api/server.rs:2532-2762 | the i-th chunk is numbered i and carries the text, the tokens and the last flag of the i-th pushed response; at most one stream end, nothing after it, and it states the tokens of the responses taken |
| `Streaming.CompleteEndIsExact` | src/api/server.rs:2532-2762 | a "complete" end states exactly the tokens billed, and the texts of the chunks sent, joined, are the generated text and the finishing content |
| `Streaming.BillIsWhatWasPulled` | src/api/server.rs:1012-1075 | in every run the generated text is the joined texts pulled from the token stream, and the first and every nonempty one of them is billed once |
| `Streaming.FinishesAreStopsOrErrors` | src/api/server.rs:1076-1124 | in every run a finishing response is the empty "stop" or carries an error the token stream gave |
| `Streaming.EndsHaveReasons` | src/api/server.rs:2578-2762 | what a response leads to: a chunk, then a final message and a "complete" end; or an error and a failed end; or nothing |
| `Streaming.OtherStepsSend` | src/api/server.rs:2540-2560 | only a cancel sends anything else: one "cancelled" end with the client's count |
| `Streaming.LoopEndsWhen` | src/api/server.rs:2532-2762 | exactly when the loop is left |
| `Streaming.EndIsWithin101` | src/api/server.rs:3126-3213 | whatever ended the stream, in either loop, its count is 0 to 101 below the bill |
| `Streaming.BoundIsReached` | src/api/server.rs:2540-2560 | a client that cancels before reading can be billed 101 tokens and told 0 |
| `StorePaths.FilePathInjective` | src/checkpoint/index.rs:68-74 | a path determines host, session and file as long as host and file hold no '/' |
| `StorePaths.PathsInFull` | src/checkpoint/index.rs:68-74 | the index and delta paths in full |
| `StorePaths.LowerMovesCapitals` | src/checkpoint/publisher.rs:171-176 | lower case moves the capital letters and leaves every other character |
| `StorePaths.PathsApart` | src/checkpoint/publisher.rs:362-365 | index and delta paths of all sessions and numbers are pairwise different |
| `StorePaths.DecimalReads` | src/checkpoint/publisher.rs:362-365 | the decimal in a delta's name gives its number back |
| `Publisher.UploadIsFirstOfThree` | src/checkpoint/publisher.rs:511-550 | an upload succeeds if and only if one of the first three attempts does, and with the CID of the first that does |
| `Publisher.StrippedCid` | src/checkpoint/publisher.rs:372-387 | the CID loses its scheme if it has one, and nothing else |
| `PublisherObjects.Upload` | src/checkpoint/publisher.rs:498-560 | at most three attempts; the first success is the result and the only change to the store |
| `PublisherObjects.CheckpointPublisher.PublishCheckpoint` | src/checkpoint/publisher.rs:272-446 | the in-place publisher does what the step function does to the session map and the store, at every failure point |
| `PublisherObjects.CheckpointPublisher.AddToIndex` | src/checkpoint/publisher.rs:393-446 | the entry stays in memory whether or not the index goes up; state is committed only after it does |
| `Publisher.ResumedState` | src/checkpoint/publisher.rs:76-91 | what a resumed session starts from: number, token count, index, and nothing buffered, streamed or set |
| `PublisherObjects.CheckpointPublisher.InitSession` | src/checkpoint/publisher.rs:453-483 | a readable index replaces the session's state, otherwise nothing changes; it fails exactly when the file read is no index |
| `PublisherObjects.CheckpointPublisher.FetchIndex` | src/checkpoint/publisher.rs:453-460 | the read outside the lock: the stored index, none if there is none to read, an error if the file is no index |
| `PublisherObjects.CheckpointPublisher.Install` | src/checkpoint/publisher.rs:473-475 | an index that was read replaces the state of its session and of no other |
| `PublisherRuns.PublishEffect` | src/checkpoint/publisher.rs:284-446 | what one publish call changes in the stored deltas and indexes of all sessions and in the state, for every combination of failures |
| `PublisherRuns.PublishDetails` | src/checkpoint/publisher.rs:321-446 | which signature, key, CID and time reach the delta, the entry and the index, and what of the state a publish leaves alone |
| `PublisherRuns.DeltaHoldsStream` | src/checkpoint/publisher.rs:284-365 | in every run whatsoever a delta that goes up holds the buffer and then, if anything was streamed since the state began or the stream was cleared, that text as one partial assistant message; and it is encrypted for the key set since |
| `PublisherRuns.StateHoldsStream` | src/checkpoint/publisher.rs:135-146 | in every run the state holds the joined chunks streamed, and the key set, since it began |
| `PublisherRuns.EveryRunIsSafe` | src/checkpoint/publisher.rs:361-483 | over every run with failures, removals, restarts and resumes: entries[i].index <= i, checkpoint_index <= entries, the stored index is a prefix of the one in memory, and the last entry of each number describes the stored delta |
| `PublisherRuns.StoredIndexIsBacked` | src/checkpoint/publisher.rs:393-446 | every entry of the stored index has a stored delta, also while failed retries sit in memory |
| `PublisherRuns.NoIndexedDeltaOverwritten` | src/checkpoint/publisher.rs:361-446 | a delta whose number has reached the stored index never changes again, from any point of any run to its end, and stored entries only grow |
| `PublisherRuns.OverwriteIffUnread` | src/checkpoint/publisher.rs:453-483 | after any such run the next delta uploaded for a session hits an indexed number if and only if the session has a nonempty index and no state |
| `PublisherRuns.UnreadStateOccurs` | src/checkpoint/publisher.rs:453-483 | a publish and a restart lead there |
| `PublisherRuns.UnreadSessionStartsOver` | src/checkpoint/publisher.rs:199-202 | what any run does to a session used without its index being read: until its first commit the old index stays over deltas replaced from 0; from then on the stored index holds only what was published since, and later deltas are the old ones, no longer named |
| `PublisherObjects.CheckpointPublisher.RemoveSession` | src/checkpoint/publisher.rs:199-202 | drops the session's state and no other |
| `PublisherRuns.InstallKeepsIffStillStored` | src/checkpoint/publisher.rs:457-475 | installing an index read at an earlier point of the run keeps the invariant if and only if the stored entries are still those |
| `PublisherRuns.EarlyReadMisnumbers` | src/checkpoint/publisher.rs:457-475 | an index read before a commit and installed after it makes the next delta hit an indexed number |
| `PublisherRuns.RunKeeps` | src/checkpoint/publisher.rs:361-483 | the same invariants from any state that has them |
| `PublisherRuns.EveryRunIsBacked` | src/checkpoint/publisher.rs:361-483 | in every run whatsoever, with sessions used unread and indexes read too early: every stored entry has a stored delta, entries[i].index <= i and checkpoint_index <= entries |
| `PublisherRuns.PublishIsAlwaysBacked` | src/checkpoint/publisher.rs:321-446 | in every run whatsoever a publish that succeeds leaves an index whose last entry describes its delta and whose entries all have one |
| `PublisherRuns.PublishBeforeProof` | src/checkpoint/publisher.rs:321-446 | on success the store holds the delta and an index whose last entry names its CID, proof and token range, and every entry is backed |
| `PublisherRuns.EveryRunIsLabelled` | src/checkpoint/publisher.rs:76-91 | in every run the indexes name their own session and host, and the state's token count is the end token of the last stored entry |
| `PublisherRuns.MessagesAreConserved` | src/checkpoint/publisher.rs:284-446 | in every run whatsoever, the committed deltas of a session life without trailing partial messages, then the buffer, are the messages buffered, in order, if and only if no commit closed a buffer that ended in a message marked partial; each that did lost one message |
| `PublisherRuns.PartialMessageIsLost` | src/checkpoint/publisher.rs:284-446 | a buffered message marked partial is lost by the commit that closes its buffer |
| `PublisherRuns.NothingIsLost` | src/checkpoint/publisher.rs:184-190 | none did where only whole messages are buffered |
| `PublisherRuns.NumberedIffCleanCommits` | src/checkpoint/publisher.rs:419-444 | over every run: stored entries are numbered by position if and only if no publish committed while memory held an entry left by a failed index upload |
| `PublisherRuns.RetryLeavesTwoEntries` | src/checkpoint/publisher.rs:419-444 | one failed index upload and a retry store two entries numbered 0 |
| `Cleanup.DeleteAllCheckpoints` | src/checkpoint/cleanup.rs:110-163 | removes exactly the named deltas whose delete succeeds and then the index, and counts the entries |
| `Cleanup.CleanupCheckpoints` | src/checkpoint/cleanup.rs:58-104 | only a cancelled session loses files, whichever reads and deletes fail; the others are skipped or marked for 7 or 30 days |
| `Cleanup.DeleteAllViews` | src/checkpoint/cleanup.rs:110-163 | in every store, the session's index and the deltas it names are gone and every other file is as before |
| `Cleanup.EveryRunAccounts` | src/checkpoint/publisher.rs:361-446 | in every run the stored deltas are those the stored index names and those whose last index upload failed, and no number is both |
| `Cleanup.CleanupLeavesUncommitted` | src/checkpoint/cleanup.rs:110-163 | after every run cleanup leaves exactly the deltas whose last index upload failed, no index, and every other session's files as before |
| `Cleanup.CancelledCleanupUndoesPublishing` | src/checkpoint/cleanup.rs:58-163 | no file of the session is left if and only if there is no such delta |
| `Cleanup.ReportIsExactIffCleanCommits` | src/checkpoint/cleanup.rs:117-132 | the report is the number of deltas removed, numbered from 0, if and only if no publish committed over a leftover |
| `Cleanup.NoFailureLeavesNothing` | src/checkpoint/cleanup.rs:58-163 | if every index upload of the session succeeds, nothing is left and the report is exact |
| `Cleanup.UncommittedIffLeftover` | src/checkpoint/publisher.rs:419-444 | in a run that never loses or resumes the session's state, such a delta is the current number while memory holds a leftover, and there is none otherwise |
| `Cleanup.ResumeOrphansIffShorter` | src/checkpoint/publisher.rs:453-483 | losing or resuming a state drops its leftover; the number falls behind if and only if it is below the length of the stored index |
| `Cleanup.OrphansStay` | src/checkpoint/cleanup.rs:110-163 | a number that has fallen behind is never indexed again, in any continuation: cleanup never removes it |
| `Cleanup.OrphanOccurs` | src/checkpoint/cleanup.rs:110-163 | a run of three publishes and a restart leaves such a delta |
| `Cleanup.CleanupKeepsIffForgotten` | src/checkpoint/cleanup.rs:110-163 | cleanup in the middle of a run keeps the invariant if and only if the session has no state or no stored entries |
| `Cleanup.CleanupThenRunIsSafe` | src/checkpoint/cleanup.rs:110-163 | then, and always once the state is removed, every disciplined run that follows keeps it, so every later stored index is backed |
| `Cleanup.KeptStateStaysUnbacked` | src/checkpoint/cleanup.rs:110-163 | otherwise every index that the kept state stores again begins with an entry whose delta is gone |
| `JsonCanonical.SortJsonKeys` | src/checkpoint/delta.rs:112-127 | the recursive procedure returns the canonical form: in ascending order at every depth, and the value itself up to member order |
| `JsonCanonical.CanonicalIffSameUpToOrder` | src/checkpoint/delta.rs:66-71 | for values with unique member names, canonical forms are equal if and only if the values differ only in member order, at any depth |
| `JsonCanonical.CanonicalIsSortedSelf` | src/checkpoint/delta.rs:112-127 | in every object of the canonical form each name is a proper prefix of the later ones or has the smaller character where they first differ; and it is the value itself up to member order |
| `JsonCanonical.CanonicalIsIdempotent` | src/checkpoint/delta.rs:112-127 | canonicalising twice changes nothing |
| `JsonCanonical.CanonicalExample` | src/checkpoint/delta.rs:112-127 | names are sorted at both depths of a nested object, and an array keeps its order |
| `RateLimiting.RateLimiter.CheckRateLimit` | src/api/server.rs:110-126 | prunes, refuses when full and otherwise records, as the step function says |
| `RateLimiting.PrunedListRefinesHistory` | src/api/server.rs:110-126 | in every run in time order the pruned list and the full history of accepted times agree on the last 60 seconds |
| `RateLimiting.AcceptedIffRoom` | src/api/server.rs:110-126 | a request is accepted if and only if fewer than the limit were accepted in the 60 seconds before it |
| `RateLimiting.WindowNeverExceeded` | src/api/server.rs:110-126 | every half-open window of 60 seconds holds at most the limit of accepted requests of each key |
| `PromptCaching.EvictionIsOldestFirst` | src/cache/mod.rs:293-317 | making room drops the shortest prefix of the oldest entries that suffices: nothing dropped is newer than what stays, and room is made unless nothing is left |
| `PromptCaching.PutAccounts` | src/cache/mod.rs:293-322 | a put adds to the drift of the counter exactly the size of the entry it replaces, and the counter is then within the limit or the entry alone |
| `PromptCaching.CounterCovers` | src/cache/mod.rs:293-322 | in every reachable state the byte counter is at least the sum of the recorded sizes |
| `PromptCaching.PutStaysWithin` | src/cache/mod.rs:293-322 | after every put of every run the recorded total is within the limit or the new entry is alone |
| `PromptCaching.DriftIsWhatWasReplaced` | src/cache/mod.rs:176-322 | in every run the counter exceeds the recorded sizes by exactly the sizes replaced since the last clear, and is exact if and only if there are none |
| `PromptCaching.ReloadReplacesNothing` | src/cache/mod.rs:163-187 | while the clock does not go back between puts, a reload from S5 never overwrites an entry with a recorded size |
| `PromptCaching.OnlyPutsLeak` | src/cache/mod.rs:293-322 | so in such runs the excess is exactly what puts replaced |
| `PromptCaching.LeakIsLostCapacity` | src/cache/mod.rs:293-322 | until a clear, every later put keeps to the limit less that drift or leaves its own entry alone |
| `PromptCaching.ReplacementLeaks` | src/cache/mod.rs:319-322 | two puts of one prompt leave the size of the first in the counter |
| `PromptCaching.HitIsARecentPut` | src/cache/mod.rs:123-187 | every exact-match hit of every run is the response of the last put of that prompt, or of the last one that reached S5, less than ttl + 1 seconds ago |
| `PromptCaching.HitIsTheLatestPut` | src/cache/mod.rs:123-187 | if the last put of the prompt reached S5, every hit is its response |
| `PromptCaching.FreshPutIsFound` | src/cache/mod.rs:123-187 | while it is fresh in whole seconds and S5 can be read, there is a hit, whatever was evicted or cleared |
| `PromptCaching.FailedWriteRevivesOlderPut` | src/cache/mod.rs:325-344 | after a put whose write failed, losing the memory brings the older stored response back |
| `PromptCaching.SortByCreation` | src/cache/mod.rs:302-306 | lists every key once, by creation time |
| `PromptCaching.HitIffYoung` | src/cache/mod.rs:135-187 | what is fresh, in nanoseconds: less than ttl + 1 seconds old, for the memory also if the clock went back |
| `PromptCaching.CacheLayout` | src/cache/mod.rs:287-327 | the path, the size and the limit in figures |
| `PromptCaching.PromptCache.Get` | src/cache/mod.rs:123-187 | answers from memory, then S5, and reloads a hit from S5 with its own age and no size |
| `PromptCaching.PromptCache.Put` | src/cache/mod.rs:252-344 | evicts, counts and stores as the step function says, and keeps the counter above the recorded sizes |
| `PromptCaching.PromptCache.EvictOldest` | src/cache/mod.rs:308-316 | the loop that stops early evicts what the function says, and its counter never goes below zero |
| `PromptCaching.PromptCache.Clear` | src/cache/mod.rs:406-414 | empties the memory and the counter and leaves S5 alone |
| `ClaimCounter.CounterIsExact` | src/job_claim.rs:167-180 | in every interleaving the counter is the claims in flight, the jobs held, the unclaims that owe a decrement and the double inserts, and at most the maximum |
| `ClaimCounter.NoDecrementUnderflows` | src/job_claim.rs:345-350 | whenever a failed claim or an unclaim decrements, the counter is at least one |
| `ClaimCounter.TightWhenGrantedOnce` | src/job_claim.rs:167-223 | if each job is granted at most once, the counter is in-flight plus held whenever no unclaim owes a decrement |
| `ClaimCounter.TightIffNoDoubles` | src/job_claim.rs:167-223 | it is that if and only if no unclaim owes a decrement and no insert was double |
| `ClaimCounter.DoubleInsertNeedsOverlap` | src/job_claim.rs:167-350 | whatever the marketplace grants, an insert is double only if a claim of the job was let in while another call of it was under way or the job was in the set |
| `ClaimCounter.ClaimsAloneMeansNoDoubles` | src/job_claim.rs:167-350 | so if every claim comes alone, no insert is double |
| `ClaimCounter.TruthfulDoubleInsertNeedsOverlap` | src/job_claim.rs:535-553 | with a marketplace that says truthfully whether a job is free and then grants every claim, as the reference one, a double insert needs two calls of the job under way at once |
| `ClaimCounter.TwoClaimsLoseASlot` | src/job_claim.rs:182-223 | two such claims of one job, without any unclaim, lose a slot |
| `ClaimCounter.SequentialCallsAreAlone` | src/job_claim.rs:167-350 | a claim, a whole unclaim and another claim in turn are alone and do not overlap |
| `ClaimCounter.DoubleInsertIsARace` | src/job_claim.rs:207-350 | with a marketplace that never grants a job the node holds, an insert is double if and only if it overtakes an unclaim of the same job |
| `ClaimCounter.LostSlotsStayLost` | src/job_claim.rs:167-350 | no later step gives back the slot a double insert cost |
| `ClaimCounter.RaceLosesASlot` | src/job_claim.rs:345-350 | a concrete race of a claim and an unclaim, with a truthful and exclusive marketplace, that ends with an empty set and a counter of one |
| `JobClaim.JobTestsAreExact` | src/job_claim.rs:283-315 | the floored price test is payment * 1000 >= minimum * max_tokens, and the profit test is 9 * payment > 10 * gas cost |
| `JobClaim.MockClaimableIff` | src/job_claim.rs:535-570 | what the reference marketplace lets a registered node claim, in figures |
| `JobClaim.FilterAgreesWithAction` | src/job_claim.rs:182-343 | for a registered node a job is listed if and only if an attempt at its id reaches the marketplace claim |
| `JobClaim.ListRepeatsNothing` | src/job_claim.rs:317-343 | the list holds only jobs of the marketplace, each id once |
| `JobClaim.BatchClaimsAPrefix` | src/job_claim.rs:225-233 | claiming distinct claimable jobs in turn succeeds on exactly the first min(n, max - active) and records and marks exactly those |
| `JobClaim.BatchOfListedJobs` | src/job_claim.rs:535-570 | and so does claiming what the filter lists, in whatever order the marketplace lists its jobs |
| `JobClaim.JobClaimer.Validate` | src/job_claim.rs:292-315 | the three tests and their errors in order |
| `JobClaim.JobClaimer.TryClaimJob` | src/job_claim.rs:182-223 | the checks and their errors in order, then the marketplace's answer |
| `JobClaim.JobClaimer.ClaimJob` | src/job_claim.rs:167-180 | counts first and uncounts on failure: one more on success, nothing changed otherwise |
| `JobClaim.JobClaimer.ClaimJobWithRetry` | src/job_claim.rs:235-263 | returns the result of the first attempt that settles the matter or of the last one allowed; one more active claim on success, nothing changed on failure |
| `JobClaim.JobClaimer.ClaimBatch` | src/job_claim.rs:225-233 | the loop does what the batch function says to the node and the marketplace |
| `JobClaim.JobClaimer.GetClaimableJobs` | src/job_claim.rs:317-343 | the loop returns the list the filter theorem is about |
| `JobClaim.JobClaimer.UnclaimJob` | src/job_claim.rs:345-350 | a refused unclaim changes nothing, a granted one drops the job and the count |
| `Monitor.AtLeastOnce` | src/contracts/monitor.rs:224-262 | whatever the polls, the events of the blocks behind the cursor stand in the deliveries at rising positions, and every further delivery was by a poll that then failed |
| `Monitor.ExactlyOnceIffNothingInVain` | src/contracts/monitor.rs:224-262 | the deliveries are exactly those events, each once, if and only if no poll failed after sending |
| `Monitor.CursorNeverMovesBack` | src/contracts/monitor.rs:258-259 | no run of polls lowers the cursor |
| `Monitor.CursorMovesIffAllParse` | src/contracts/monitor.rs:248-259 | an answered poll moves the cursor to the head if and only if every log up to it parses, and otherwise fails |
| `Monitor.MalformedBlocksTheCursor` | src/contracts/monitor.rs:248-249 | the cursor never reaches a block with a log that does not parse |
| `Monitor.MalformedRepeats` | src/contracts/monitor.rs:248-256 | every poll that sees such a block fails and sends the events before the log again |
| `Monitor.JobMonitor.ProcessEvents` | src/contracts/monitor.rs:224-262 | sends in order, stops at a log that does not parse, and moves the cursor only at the end |
| `Monitor.JobMonitor.MonitoringLoop` | src/contracts/monitor.rs:211-222 | a sequence of polls is a run, with one error counted for each failure |
| `Payment.SplitsConserve` | src/payment_claim.rs:109-130 | for any percentages that sum to 10000 the shares lose 0, 1 or 2 units, and none if and only if each share is whole |
| `Payment.SharesAreFloors` | src/payment_claim.rs:123-129 | each share is the floor of its own percentage of the amount |
| `Payment.HostShareIs85Percent` | src/payment_claim.rs:132-136 | the default host share is 85 percent, rounded down, the others 10 and 5 |
| `Payment.StatisticsDescribe` | src/payment_claim.rs:428-441 | over any payments the statistics are their number, sum, floored mean, maximum and minimum, and smallest <= average <= largest |
| `Payment.EveryRunBalances` | src/payment_claim.rs:208-396 | in every run, whatever the payment system answers, the accumulator is its pending jobs and the sum of their host shares, and the statistics are those of the payments received |
| `Payment.ClaimAllIsBounded` | src/payment_claim.rs:379-389 | claiming a list from an honest system (unchanged escrow, no paid job payable, at most the host share) pays no job twice and at most the shares of the list |
| `Payment.HonestRunsPayOnce` | src/payment_claim.rs:208-396 | with an honest system no run pays a job twice or more than its share, and the accumulator is the sum of its jobs' shares |
| `Payment.ClaimAllPaysOnce` | src/payment_claim.rs:470-503 | with the reference system exactly the jobs that could be claimed to begin with are paid their share, each once however often listed |
| `Payment.ReferencePays` | src/payment_claim.rs:470-520 | what the reference system pays, in figures |
| `Payment.ByReferenceIsHonest` | src/payment_claim.rs:470-503 | the reference system is honest |
| `Payment.AccumulatedClaimIsBounded` | src/payment_claim.rs:366-396 | in every run with an honest system a claim of the accumulated jobs receives at most the accumulated amount, from accumulated jobs never paid before, and empties the accumulator |
| `Payment.AccumulatedClaimIsExactIff` | src/payment_claim.rs:366-396 | with the reference system it receives the accumulated amount less the shares of failed and repeated claims, so all of it if and only if there are none; its jobs that could not be claimed are dropped unpaid |
| `Payment.RunStatisticsDescribe` | src/payment_claim.rs:428-441 | in every run that tracks statistics they describe the payments received, whatever the payment system answers |
| `Payment.PaymentClaimer.ClaimPayment` | src/payment_claim.rs:208-264 | the checks in order, then the payment and the statistics, as the step function says |
| `Payment.PaymentClaimer.RecordPayment` | src/payment_claim.rs:428-441 | updates the five statistics in place as the step function says |
| `Payment.PaymentClaimer.AddJob` | src/payment_claim.rs:349-360 | a job with an escrow balance joins the accumulator with its host share |
| `Payment.PaymentClaimer.ClaimAllAccumulated` | src/payment_claim.rs:366-396 | returns exactly the sum received, and clears the accumulator |
| `HealthMetrics.MeanIsClose` | src/blockchain/registration_metrics.rs:48-55 | below 2^32 checks the stored mean never exceeds the true one and is below it by at most (n - 1) / 2 nanoseconds |
| `HealthMetrics.MeanIsBetween` | src/blockchain/registration_metrics.rs:48-55 | the stored mean keeps to every bound the samples keep to |
| `HealthMetrics.BoundIsReached` | src/blockchain/registration_metrics.rs:48-55 | for every n there are samples that reach the bound: the stored mean stays zero |
| `HealthMetrics.MeanForgets` | src/blockchain/registration_metrics.rs:53-55 | for any number of checks: at a multiple of 2^32 the division panics and the mean stays; otherwise the mean is that of the checks since the last such multiple |
| `HealthMetrics.FailuresAreConsecutive` | src/blockchain/registration_metrics.rs:57-61 | the failure counter is the length of the trailing run of failed checks |
| `HealthMetrics.RegistrationMetrics.RecordHealthCheck` | src/blockchain/registration_metrics.rs:48-61 | updates count, mean and failures in place, and panics exactly where the 32-bit count is zero |

## Left out

- Text positions are indices of characters, not of UTF-8 bytes; lower case is that of ASCII letters.
- Overflow of 32-bit, 64-bit, word-size and 256-bit counters and amounts, except where `HealthMetrics.MeanForgets` states it; percentages whose 16-bit sum wraps to 10000 in a build without overflow checks.
- A call holds one clock reading, and each section under a lock is one atomic step; lock ordering is not modelled. Calls of the cache and the payment claimer do not overlap; those of the publisher work under its lock, but for the read of `init_session`, which is a step of its own.
- A failed `put` is taken to leave the store unchanged, also when it timed out.
- `Streaming.EveryRunIsSafe`: the forwarder and the two loops are steps of a transition system, so their local variables are fields of its state and are not updated in place.
- `Streaming.CompleteEndIsExact`: image-model tokens added to the end message, message ids, request validation, and the loops' handling of other client messages are not modelled.
- `PublisherRuns.EveryRunIsSafe`: a session with a stored index whose state was lost is resumed through `init_session` before it is used, from the index then stored; `PublisherRuns.OverwriteIffUnread`, `PublisherRuns.UnreadSessionStartsOver` and `PublisherRuns.InstallKeepsIffStillStored` state what happens otherwise, and `PublisherRuns.EveryRunIsBacked` what holds of every run. The same holds for `PublisherRuns.NoIndexedDeltaOverwritten` and the results of `Cleanup`.
- `Cleanup.CancelledCleanupUndoesPublishing`: is about reads and deletes that succeed; `Cleanup.DeleteAllCheckpoints` states the effect when some fail.
- The serialised text of JSON, encryption and signing: stored bytes are what they decode to, and signatures are arbitrary strings. `compute_checkpoints_json` is the same canonicalisation.
- `JsonCanonical.SortJsonKeys`: the sort of the keys is an insertion sort on values and the objects are ordered member lists, so update in place of the key vector and the map is not captured.
- `PromptCaching.HitIsARecentPut`: the similarity search after an exact-match miss, hit and miss metrics, and entries other programs put into the cache's S5 directory are not modelled.
- `ClaimCounter.CounterIsExact`: jobs are unclaimed only while held and by one call at a time each, as `unclaim_job` does not check either.
- `JobClaim.FilterAgreesWithAction`: the marketplace answers alike during the listing and the attempt.
- Claim and payment events to subscribers, transaction hashes, retry delays, host assignment and `process_priority_assignments`.
- `Monitor.AtLeastOnce`: the receiver is subscribed and open, and blocks are not reorganised; decoding of a log is one of three outcomes.
- `Payment.EveryRunBalances`: claims are sequential; withdrawals and the parallel batch are not modelled.
- `ChatTemplate.WrittenPromptIsRead`: the standard system text with its date is a parameter; the other prompt templates are not modelled.
- The health score and the aggregate statistics over chains, the age rules of `CleanupConfig`, the circuit breaker, the connection pool, `strip_ui_markers`, model registries, RPC clients, routing and the command line.
