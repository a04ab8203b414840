# imece-core in Dafny

A model of the four computational cores of imece-core and proofs of what they promise.

**Inference with "time travel".** A session generates tokens until an action block closes, executes the
action in a sandbox, and then either appends a success observation or rolls the KV cache back to the
block and writes the error there instead. Two states have to agree all along: the logical token buffer
and the physical cache. The cache is a map from positions to the tokens decoded there.

- `text.dfy`, `action_parser.dfy`: byte-level text, and the action parser.
- `kv_cache.dfy`: buffer, cache, rollback, and when the two states are coherent.
- `failure_history.dfy`: the per-position failure history and the observations built from it.
- `engine.dfy`: the run loop. `session.dfy`: what every session keeps.
- `anchors.dfy`, `rollback_reach.dfy`: where rollbacks land and what they erase.
- `boundaries.dfy`: stop detection and parsing together. `generation.dfy`: what a pass produces, streams
  and reads, how sessions end, and cancellation.
- `reactions.dfy`: what a pass that loops back has done, and why a pass fails. On it build
  `observations.dfy` (which observations survive, what they leave uncached, what they tell) and `cache_lead.dfy` (which rollbacks the tracked
  cache length lets pass).
- `totals.dfy`: when the reported token total is exact. `one_token.dfy`: concrete sessions as witnesses.

**Chain of memory.** `vectors.dfy` (cosine similarity), `ranking.dfy`, `store.dfy` (brute-force
retrieval), `lance_store.dfy` (retrieval through the vector index, shown to refine the former),
`chain.dfy` and `chain_properties.dfy` (greedy chain evolution with adaptive truncation).

**The dual-channel agent.** `agent_loop.dfy`: the event loop as a state machine over atomic steps, its
invariant over every interleaving, halting and progress. `agent_task.dfy`: the spawned agent and its
handle as objects whose methods are steps of that machine.

**Embedding arithmetic.** `embedding.dfy`: pooling, normalisation, int8 quantisation and its error.

Objects that the source updates in place are classes, and its loops are loops. Each method is proved
equal to a specification function on values, and the properties are lemmas about those functions, over
every input and, where they concern runs, over every state a run reaches.

What lies outside the crate is a parameter: the tokens the model samples, the sandbox's answer to each
payload, the successive readings of the cancel flag, the tokenizer, and whether each call of the native
library succeeds. Sessions are proved for every choice of these. Real numbers stand for `f32`; the
square root is a function known only to be non-negative and to square to its argument.

## Where the code differs from its documentation

The model follows the code. Each difference has a lemma.

- The parameter table of `src/memory/chain.rs` says a lower beta truncates more. It truncates less
  (`LargerBetaGivesPrefix`, `LargerBetaTruncatesHere`).
- `total_tokens_generated` is documented as including erased tokens. It is the length of the final
  buffer behind the prompt, observations included, and exact in every session only for configurations
  that never act (`TotalIsExactIff`, `SuccessInflatesTotal`).
- The tracked cache length is documented as updated on each operation. Prefill and generation do not
  update it (`LeadAtEveryPass`), so with the initial position 0 of the top-level README no rollback can
  succeed, nor with any other up to the prompt length (`ColdCacheNeverRollsBack`,
  `SomeSessionRollsBackIff`).
- The rollback anchor is a byte offset within the text of one pass, added to the end of the prompt. With
  one-byte tokens it is the token that opens the block if and only if the pass began at the end of the
  prompt (`AnchorIsSound`). In a later pass it can lie before the pass (`RollbackKeepsEarlierIff`): a
  second action that fails erases the first, successful one with its observation
  (`FailureErasesSuccess`). With longer tokens it can lie behind the buffer, and the session panics
  (`LongTokenPanics`).
- After a success observation the cache lacks the token generated last (`ObservationLeavesOneHole`).
- When the signal channel closes mid-task, the handler is said to finish first. As long as the closed
  channel is ready whenever it is asked, the biased `select!` never polls the handler again
  (`ClosedChannelStarvesHandler`); the handler can finish if and only if the channel is still open
  (`CompletesIff`), and a run from the start reaches the other case (`ClosedMidTask`).
- A history cap of 0 panics at the first failure (`PanicsIffCapIsZero`).
- The number of failures that an observation reports is capped (`ObservationListsWindow`).

## Model

| member | source | states |
|---|---|---|
| Texts.TrimRemovesBlankEnds | src/inference/executor.rs:257-258 | trimming splits a text into a blank front, the result, and a blank end, and leaves no white-space character at either end of the result |
| Texts.SpaceCharIff | src/inference/executor.rs:258 | the characters trimmed are exactly the UTF-8 encodings of the code points with property White_Space |
| Texts.BoundariesOfCharacter | src/inference/types.rs:310-321 | a character boundary is where the UTF-8 encoding of a code point starts, never inside it |
| Texts.TruncateTailKeepsLongestSuffix | src/inference/types.rs:310-321 | within the cap the text is unchanged; beyond it the result is the marker and the longest suffix of at most `cap` bytes that starts on a character boundary |
| Texts.DecimalDenotes | src/inference/engine.rs:471-493 | the decimal rendering of a count or exit code denotes that number, its sign included |
| ActionParser.MarkedBlockIsParsed | src/inference/executor.rs:242-266 | a block marked by the first `<action`, the first `>` after it and the first `</action>` behind a non-empty body is exactly what the parser returns |
| ActionParser.AcceptsExactlyMarkedBlocks | src/inference/executor.rs:242-266 | the parser accepts a text if and only if it contains such a block |
| ActionParser.NoMarkerBeforeClose | src/inference/executor.rs:246 | a closing marker that is in none of the free pieces of a block occurs nowhere before its end, not even across seams |
| ActionParser.TypeAttributeReadBack | src/inference/executor.rs:270-275 | the type attribute written into a tag is read back |
| ActionParser.BlockAtEnd | src/inference/executor.rs:242-266 | in a text whose first closing tag is its end the parser accepts exactly if an opening tag is closed with a byte to spare, and the block then ends with the text |
| ActionParser.OpensNothingIff | src/inference/executor.rs:243-252 | that fails exactly when there is no `<action`, no `>` behind it, or no body |
| ActionParser.AttributeReadIff | src/inference/executor.rs:270-275 | the value read is the one between the first `name="` and the first quote behind it, and none is read if there is no such pattern or quote |
| ActionParser.TaggedRoundTrip | src/inference/executor.rs:242-266 | parsing a block with any opening tag gives the tag's type, `python` for a tag without a type attribute, the trimmed body and the offsets |
| ActionParser.PlainTagDefaults | src/inference/executor.rs:254-255 | `<action>` is such an opening tag, of type `python` |
| ActionParser.RoundTrip | src/inference/executor.rs:242-266 | parsing a rendered block gives its type, its trimmed body and its offsets, and nothing if and only if the body is empty |
| KvCache.PrefillIsCoherent | src/inference/engine.rs:207-213 | prefilling all but the last prompt token into an empty cache gives a coherent state without holes |
| KvCache.GenerateKeepsCoherence | src/inference/backend.rs:444-471 | the position a generation step decodes was free, and after appending the sample the state is coherent again |
| KvCache.ObservationLeavesOneHole | src/inference/engine.rs:261-276 | a success observation leaves exactly one new hole, at the last generated token, if and only if it has tokens |
| KvCache.RollbackKeepsCoherence | src/inference/kv_cache.rs:108-179 | a successful rollback restores coherence and removes exactly the holes at or behind the anchor |
| KvCache.TimeTravelEqualsReprompting | src/inference/kv_cache.rs:144-167 | buffer and cache after a rollback are those of prefilling the kept tokens and the observation into an empty cache, minus the holes before the anchor; equal if and only if there are none |
| KvCache.EmptyObservationRollback | src/inference/kv_cache.rs:148-153 | with an empty observation coherence survives if and only if the position before the anchor was a hole |
| KvCache.RollbackBuffer | src/inference/kv_cache.rs:148-167 | the buffer after a rollback is the part before the anchor followed by the observation |
| KvCache.RollbackSucceedsIff | src/inference/kv_cache.rs:114-161 | a rollback succeeds if and only if `validate_rollback` finds nothing and the native calls succeed; a refused one changes nothing and reports that finding |
| KvCache.RefusalIff | src/inference/kv_cache.rs:114-140 | exactly when a rollback is refused, with which error and which numbers; a refused one changes nothing |
| KvCache.FailedRollbackLeaves | src/inference/kv_cache.rs:144-161 | what a failed rollback leaves: nothing changed, or, exactly when the injection failed, a cut buffer and an erased cache with part of the observation at most |
| KvCache.RollbackLead | src/inference/backend.rs:593-670 | the lead of the tracked length over the buffer never grows, and an observation of two or more tokens costs one |
| KvCache.GenerationState.PushToken | src/inference/types.rs:62-65 | appends one token and sets the cache position to the length of the buffer |
| KvCache.GenerationState.PushAll | src/inference/kv_cache.rs:163-166 | appends all observation tokens in order |
| KvCache.LlamaContext.Decode | src/inference/backend.rs:299-343 | a batch at consecutive positions is in the cache if the call succeeds, and some first part of it otherwise |
| KvCache.LlamaCppKvCache.SeqRm | src/inference/backend.rs:575-605 | erases the range and shortens the tracked length by its size, saturating |
| KvCache.LlamaCppKvCache.SeqLen | src/inference/backend.rs:607-609 | the tracked length, 0 for an unregistered sequence |
| KvCache.LlamaCppKvCache.InjectTokens | src/inference/backend.rs:611-670 | decodes all but the last token and lengthens the tracked length accordingly |
| KvCache.KvCacheController.Rollback | src/inference/kv_cache.rs:108-179 | performs the specified rollback; both counters grow exactly on success |
| KvCache.KvCacheController.Validate | src/inference/kv_cache.rs:184-209 | reports the first violated condition, in order |
| FailureHistory.FailureLog.BuildObservation | src/inference/engine.rs:424-497 | returns the specified text and updates the history as specified, or panics |
| FailureHistory.ListAttempts | src/inference/engine.rs:484-493 | appends the listing of all attempts to the header |
| FailureHistory.HistoryIsSlidingWindow | src/inference/engine.rs:439-453 | after any sequence of failures the records at a position are the last ones there, up to the cap, in order |
| FailureHistory.ObservationListsWindow | src/inference/engine.rs:455-496 | the observation shows that window ending with the current failure, and the reported count is the true one if and only if the cap is not exceeded |
| FailureHistory.ObservationShowsError | src/inference/engine.rs:432-482 | every observation, with or without history, starts with the code and the full message of the current error |
| FailureHistory.ObservationShowsErased | src/inference/engine.rs:455-496 | with history, an observation ends by quoting the capped erased text of the current failure, in the words of a first failure or as the last listed attempt with code and error |
| FailureHistory.SuccessShowsOutput | src/inference/engine.rs:261-263 | a success observation is the output between its fixed parts |
| FailureHistory.TimeoutShowsTime | src/inference/engine.rs:348-360 | the error of a timeout states the configured time |
| FailureHistory.HeaderShowsCount | src/inference/engine.rs:476-482 | the header of a repeated failure states how many attempts follow |
| FailureHistory.AttemptLineShows | src/inference/engine.rs:485-492 | a listed attempt starts with its number, quotes what was generated, and ends with its code and error |
| FailureHistory.ListingShowsAttempt | src/inference/engine.rs:484-493 | every retained attempt appears, numbered in order |
| FailureHistory.PanicsIffCapIsZero | src/inference/engine.rs:442-445 | the first recorded failure panics if and only if the cap is 0; with a larger cap no later one does |
| FailureHistory.ObservationIsBounded | src/inference/types.rs:234-253 | however often a position fails, the observation is bounded by the error text and the configured caps |
| FailureHistory.DefaultBudget | src/inference/types.rs:243-252 | with the source's wording and default caps that is the error message plus 3248 bytes |
| Engine.MatchedStopIsFirst | src/inference/engine.rs:547-556 | the stop acted on is the first one configured that the text ends with, and none is missed |
| Engine.InferenceEngine.EvaluateTokens | src/inference/backend.rs:474-503 | decodes the tokens from the given position on; nothing happens for an empty batch |
| Engine.InferenceEngine.GenerateNextToken | src/inference/backend.rs:444-471 | decodes the last token at its position, then returns the next sample or end of sequence |
| Engine.InferenceEngine.GenerateUntilStop | src/inference/engine.rs:518-560 | the generation loop computes the specified pass over buffer, cache, stream and cancel readings |
| Engine.InferenceEngine.FindStop | src/inference/engine.rs:547-556 | the loop over the stop sequences finds the first match |
| Engine.InferenceEngine.ActionSucceeded | src/inference/engine.rs:257-279 | appends and evaluates the observation and resets the retry counter |
| Engine.InferenceEngine.ActionFailed | src/inference/engine.rs:281-346 | counts the attempt, records it, rolls back and logs, or ends the session as specified |
| Engine.InferenceEngine.InterceptAction | src/inference/engine.rs:229-255 | parses, executes and reacts as specified |
| Engine.InferenceEngine.RunPass | src/inference/engine.rs:216-405 | one iteration of the loop is one specified pass |
| Engine.InferenceEngine.RunStreaming | src/inference/engine.rs:177-414 | the whole run returns the specified session and leaves cache, counters and environment as specified |
| SessionProperties.GenerateMovesTokens | src/inference/engine.rs:527-559 | a generation pass moves a prefix of the model's tokens to the buffer, streams their texts one by one, and returns their concatenation |
| SessionProperties.GenerateIsCoherent | src/inference/engine.rs:527-559 | a generation pass that did not fail leaves buffer and cache coherent, with the last token cached as well only at a terminal stop |
| SessionProperties.PassKeeps | src/inference/engine.rs:216-406 | one pass keeps accounting, log grammar and history, and reports an exceeded budget exactly when the log shows it, or the sandbox itself reports it |
| SessionProperties.SessionAccounting | src/inference/engine.rs:408-413 | in an Ok session the result carries the text behind the prompt and all events, the prompt is untouched, tokens generated plus observed equal the reported total plus those erased, and the counters grew by the rollbacks of the log |
| SessionProperties.RetryBudget | src/inference/engine.rs:286-296 | the log ends with a failed execution preceded by the maximal number of them since the last success if and only if the session ends with `MaxRetriesExceeded` and the log is incomplete; the log is complete only when the sandbox raised that error itself |
| SessionProperties.PassIsResumable | src/inference/engine.rs:216-406 | a pass that loops back leaves a coherent state, and holes only if some action succeeded |
| SessionProperties.SessionIsCoherent | src/inference/engine.rs:207-406 | from an empty cache every pass of every session starts coherent, without holes and equal to a reprompt before the first success, and every Ok session ends coherent |
| SessionProperties.SessionIsKept | src/inference/engine.rs:186-406 | at every pass of every session the tokens are accounted for, the log is in the grammar and within the budget, and the history replays the faults |
| AnchorProperties.AnchorIsSound | src/inference/executor.rs:260-265 | with tokens of at most one byte the anchor is a generated token of the buffer and what is erased ends with the whole block; with tokens of exactly one byte it is the opening token if and only if the pass began at the prompt's end |
| AnchorProperties.HistoryRecordsErasedText | src/inference/engine.rs:302-335 | the text recorded for a failure is exactly the text that the rollback erases |
| AnchorProperties.FaultPanicsIff | src/inference/engine.rs:306-307 | reacting to a failure panics if and only if retries are left and the anchor lies behind the buffer or the history cap is 0 |
| AnchorProperties.SessionIsClean | src/inference/engine.rs:298-335 | with tokens of at most one byte, hints at the action itself, no cache errors from the sandbox and a positive cap no session panics and no rollback is refused for its range |
| AnchorProperties.SessionPasses | src/inference/engine.rs:216-237 | against a model that emits N tokens a session takes at most N + 1 passes |
| AnchorProperties.HistoryAtEveryPass | src/inference/engine.rs:192-200 | at every pass the history at every position is the window of the failures there |
| Boundaries.NoStopIsPassed | src/inference/engine.rs:527-559 | with tokens of at most one byte a configured stop sequence occurs at the end of what a pass generates or nowhere, and nowhere when the budget runs out |
| Boundaries.BoundaryIsFirstClose | src/inference/engine.rs:529-557 | with such tokens and the default stops, at every action boundary the first closing tag is the end of the text, and the text has no `</s>` |
| Boundaries.EveryBoundaryIsUnderstood | src/inference/engine.rs:229-248 | in every pass of every such session the intercepted text is what the pass added; it is executed as one action ending with the text, and a warning is logged instead exactly when there is no `<action`, no `>` behind it, or no body |
| Boundaries.RenderedActionIsIntercepted | src/inference/engine.rs:529-557 | an action written one byte per token under the default stops is intercepted exactly behind its closing tag and parsed into what was written |
| GenerationProperties.GenerateEnds | src/inference/engine.rs:518-560 | every generation pass ends after exactly the tokens, and for exactly the reason, that its result says: first stop sequence matched, budget used up, end of the model's tokens, true reading of the cancel flag, or failed decoding |
| GenerationProperties.SessionStreams | src/inference/engine.rs:541-543 | however a session ends and whatever is rolled back, the caller is streamed exactly the texts of the tokens taken from the model, one by one and in order |
| GenerationProperties.SessionEndsAtPass | src/inference/engine.rs:386-413 | a pass whose generation fails ends the session with that error, and one that stops without an action ends it with text, count, counters and events so far |
| GenerationProperties.SessionIsCancelled | src/inference/engine.rs:216-222 | the flag is read before every pass and every token: if reading j is true, no later one is taken, at most j tokens are generated, and the session that gets there ends Ok; if the first is true nothing happens at all |
| Reactions.LoopingPass | src/inference/engine.rs:216-406 | every pass that loops back generated at least one token and then logged a warning, if its text held no action, or executed that action, logged its type and outcome, and appended the tokenized output, or rolled back with the tokenized account of the failure |
| Reactions.InterceptFails | src/inference/engine.rs:249-346 | why a session fails on an intercepted action, and with which error |
| ObservationProperties.HoleIff | src/inference/engine.rs:261-276 | the holes are exactly the positions right before a non-empty success observation that no rollback has reached since |
| ObservationProperties.ObservationsSurvive | src/inference/engine.rs:261-335 | at every pass the log tells which observations were written, every observation token that no later rollback reached is in the buffer where it was written, and there are at most as many holes as successes |
| ObservationProperties.UncachedIff | src/inference/engine.rs:216-406 | at every pass a position before the last is missing from the cache if and only if a success observation was appended right behind it and no rollback has reached it since |
| ObservationProperties.EveryObservationIsBounded | src/inference/engine.rs:424-497 | at every pass of every session the next observation is bounded by the error text and the configured caps |
| ObservationProperties.EveryReactionIsExplained | src/inference/engine.rs:229-372 | in every pass of every session that loops back the reaction follows from the sandbox's answer; after a failure the model is told code, full error and, with history, the erased text |
| CacheLead.LeadAtEveryPass | src/inference/backend.rs:593-670 | at every pass the tracked length leads the buffer by the initial lead over the prompt, minus tokens generated, minus tokens of success observations, minus rollbacks with two or more observation tokens |
| CacheLead.FaultPassesBoundsIff | src/inference/kv_cache.rs:114-140 | a rollback attempt is refused by the bounds check if and only if more was spent than that initial lead, and succeeds if and only if it is not refused, lies behind the prompt and the native calls succeed |
| CacheLead.SessionRollsBackIff | src/inference/engine.rs:281-346 | the same for a failed execution in any pass of any session, in terms of the session's inputs |
| CacheLead.ColdCacheNeverRollsBack | src/inference/backend.rs:538-566 | with an initial position of at most the prompt length no session rolls back, so an Ok session contains no failed action |
| CacheLead.WarmCacheRollsBack | src/inference/engine.rs:298-335 | with any larger one a session that fails one action rolls back and ends Ok |
| CacheLead.SomeSessionRollsBackIff | src/inference/backend.rs:538-566 | on a given prompt some session rolls back if and only if the initial position exceeds the prompt length |
| TokenTotals.TotalIsExactIff | src/inference/engine.rs:604-605 | the reported total is the number of tokens generated in every session on a prompt if and only if the prompt or the budget is empty, or no text is both an action boundary and an action |
| TokenTotals.ActingConfigurations | src/inference/types.rs:365-371 | a configuration without boundary stops has no such text, one whose first stop is a boundary, as the default, has one |
| OneTokenSessions.SuccessInflatesTotal | src/inference/engine.rs:409 | a session that generates one token and observes n reports a total of n + 1 |
| RollbackReach.RollbackKeepsEarlierIff | src/inference/engine.rs:298-335 | with hints at the action itself, every rollback of every session goes to the prompt's end plus the byte offset of the first `<action` in the pass's text, and keeps what was in the buffer before the pass if and only if that offset is at least the number of tokens behind the prompt at that time |
| RollbackReach.FailureErasesSuccess | src/inference/executor.rs:260-265 | a session whose first action succeeds and whose second fails rolls back to the end of the prompt, erasing the first action and its observation |
| OneTokenSessions.LongTokenPanics | src/inference/executor.rs:263 | a failing action behind a lead-in of two bytes, emitted as one token, makes the session panic |
| Vectors.CauchySchwarz | src/memory/store.rs:191-207 | the square of a dot product is at most the product of the squared norms, in every dimension |
| Vectors.DotConcat | src/memory/store.rs:191-207 | a dot product adds up over parts and is a product in one dimension |
| Vectors.CosineIs | src/memory/store.rs:196-207 | the similarity times the product of the norms is the dot product, or it is 0 when that product is below epsilon |
| Vectors.CosineBounded | src/memory/store.rs:56-57 | the cosine similarity lies in [-1, 1] |
| Vectors.CosineSymmetric | src/memory/store.rs:196-207 | the similarity is symmetric, so store and chain score a node alike |
| Vectors.CosineScaleDown | src/memory/store.rs:196-207 | scaling a vector down changes a similarity if and only if the dot product is not 0 and the norms cross epsilon |
| Ranking.SortSorts | src/memory/store.rs:152-157 | the sort orders by descending score and only rearranges |
| Ranking.SortIsStable | src/memory/store.rs:152-157 | nodes of equal score keep their order |
| Store.MemoryStore.NewInMemory | src/memory/store.rs:80-91 | dimension 0 is refused, otherwise the store is empty |
| Store.MemoryStore.Insert | src/memory/store.rs:99-108 | appends a node of the right dimension, refuses any other and then changes nothing |
| Store.MemoryStore.InsertBatch | src/memory/store.rs:111-116 | inserts all, or exactly the nodes before the first one of a wrong dimension |
| Store.MemoryStore.TopK | src/memory/store.rs:129-161 | returns the specified ranking, or the dimension error |
| Store.TopKIsBest | src/memory/store.rs:120-161 | the result is a best part of the eligible nodes, as many as asked for, descending, stable, scored in [-1, 1]; nothing left out is better |
| LanceStore.TopK | src/memory/lance_store.rs:357-459 | the loop over batches and rows filters, converts and truncates the rows, for any way they were cut into batches |
| LanceStore.FlattenIff | src/memory/lance_store.rs:391-393 | reading batch after batch gives exactly the rows that were cut into them: none is lost, repeated or moved |
| LanceStore.MissingDistanceScoresOne | src/memory/lance_store.rs:445-448 | a row without a distance scores 1 |
| LanceStore.ConvertedDistanceIff | src/memory/lance_store.rs:445-448 | one minus half the squared distance is the dot product if and only if the squared norms add up to 2 |
| LanceStore.FetchSufficesIff | src/memory/lance_store.rs:375-458 | fetching fewer rows loses nothing if and only if enough of them survive the filter |
| LanceStore.OverFetchSuffices | src/memory/lance_store.rs:375-376 | with distinct ids, fetching as many extra rows as there are exclusions loses nothing |
| LanceStore.IndexRefinesStore | src/memory/lance_store.rs:348-459 | over an exact scan of unit vectors with distinct ids the index returns the scores of the brute-force store, and the same nodes when there are no ties |
| LanceStore.DuplicateIdsLoseResults | src/memory/lance_store.rs:375-458 | with a node stored twice the index misses an eligible node |
| ChainProperties.GateMeasures | src/memory/chain.rs:227-231 | the gate times the norms is the product of the dot products with query and centroid; it is 0 if one of them is 0 or a norm product is below epsilon |
| ChainProperties.CandidatesAreClosest | src/memory/chain.rs:137-150 | the candidates are the stored nodes most similar to the query, as many as asked for, and none for a query of the wrong dimension |
| Chain.SelectBestCandidate | src/memory/chain.rs:217-240 | the loop returns the first candidate of maximal gate and its score |
| Chain.BestIsGreatest | src/memory/chain.rs:217-240 | no candidate has a greater gate than the winner, and earlier ones have smaller gates |
| Chain.SwapRemoveRemovesOne | src/memory/chain.rs:193 | removes exactly one occurrence and moves only the last element |
| Chain.Evolve | src/memory/chain.rs:133-205 | the loop returns the specified chain |
| Chain.EvolveWithDiagnostics | src/memory/chain.rs:270-328 | the loop returns the specified chain and diagnostics |
| ChainProperties.EvolutionIsGreedy | src/memory/chain.rs:157-197 | every member maximises the gate against the mean of the members before it among all candidates left and survives truncation; evolution ends for one of three reasons; steps and scores are counted as documented |
| ChainProperties.GreedyOnUnits | src/memory/chain.rs:157-197 | with unit vectors each member has, among all candidates left, the greatest product of its dot product with the query and its summed dot products with the members before it |
| ChainProperties.EvolutionsAgree | src/memory/chain.rs:267-270 | the plain and the diagnostic evolution return the same chain |
| ChainProperties.AcceptedScores | src/memory/chain.rs:180-196 | accepted scores lie in [0, 1] and are at least beta to the step times the first |
| ChainProperties.ScoresOfEvolution | src/memory/chain.rs:209-216 | all gate scores of an evolution lie in [-1, 1], and the accepted ones decay no faster than beta allows |
| ChainProperties.CentroidOrSum | src/memory/chain.rs:163-169 | scoring against the mean or the running sum agrees if and only if the norms do not cross epsilon or the dot product is 0 |
| ChainProperties.LargerBetaGivesPrefix | src/memory/chain.rs:180-190 | with a larger beta or a smaller length cap the chain is a prefix |
| ChainProperties.LargerBetaPrefixIsExact | src/memory/chain.rs:180-190 | namely the longest prefix within the cap whose scores obey the larger beta's own rule |
| ChainProperties.LargerBetaTruncatesHere | src/memory/chain.rs:32 | on a concrete store beta 1/2 keeps one node where beta 0 keeps two |
| AgentLoop.ControlSignalsAct | src/actor/agent.rs:172-221 | the control signals are exactly the envelopes that the signal handler acts on |
| AgentLoop.NextKeepsInv | src/actor/agent.rs:281-403 | every step of agent or environment keeps the invariant |
| AgentLoop.MessagesInOrder | src/actor/agent.rs:281-403 | in every reachable state signals are handled, deferred and queued in sending order, handlers run one at a time on the non-control messages in order, and the shutdown hook ran once per stop handled |
| AgentLoop.HaltEndsTheAgent | src/actor/agent.rs:326-402 | once stopping, with the signal sender alive, the agent can always step until it has exited, and takes at most one step per unit of work, two per signal queued or sent meanwhile, one per deferred signal and three more |
| AgentLoop.NoMessageAfterShutdown | src/actor/agent.rs:287-315 | once the shutdown hook has run, for whatever signal and in whatever phase, no message is taken or started any more |
| AgentLoop.ExitsForAReason | src/actor/agent.rs:281-403 | in every reachable state the hook ran once per stop handled; the agent exits only after a stop, a closed channel or a response it could not send; each interrupt handled reached its hook; and what went out is what the hooks returned, in order |
| AgentLoop.ClosedChannelEndsIdle | src/actor/agent.rs:287-304 | an idle agent that no message can reach any more handles the signals left, starts nothing and exits |
| AgentLoop.SignalsBeforeMessages | src/actor/agent.rs:284-304 | in every reachable state in which an idle agent takes a message, every signal sent has been handled and no message is unfinished |
| AgentLoop.HaltStartsNothing | src/actor/agent.rs:358-402 | after a halt mid-task no message is started any more; on exit every deferred signal was handled and the hook ran for each halt, or, when the response could not be sent, none was and the hook did not run |
| AgentLoop.CancelledIff | src/actor/agent.rs:342-367 | throughout a processing phase the cancel flag is set if and only if there is a token and a control signal was deferred since the handler last cleared it, or it was set before and never cleared |
| AgentLoop.ProcessingEnds | src/actor/agent.rs:330-375 | with the signal sender alive, steps of a processing phase are exactly accounted for by work done and signals taken, so the phase ends |
| AgentLoop.ClosedChannelStarvesHandler | src/actor/agent.rs:336-341 | once the signal channel is closed, with or without signals left in it, no run completes the message or leaves the phase |
| AgentLoop.CompletesIff | src/actor/agent.rs:326-375 | some run completes the message in progress if and only if the signal channel is still open |
| AgentLoop.ClosedMidTask | src/actor/agent.rs:336-341 | a freshly spawned agent that takes a message and then loses the last signal sender never finishes it |
| AgentRuntime.AgentTask.HandleControlSignal | src/actor/agent.rs:172-203 | runs the hook that the signal calls for and asks to leave the loop exactly for halt and shutdown |
| AgentRuntime.AgentTask.IdleSignalStep | src/actor/agent.rs:287-298 | the signal branch of the idle phase |
| AgentRuntime.AgentTask.IdleMessageStep | src/actor/agent.rs:300-315 | the inbox branch of the idle phase |
| AgentRuntime.AgentTask.ProcessingStep | src/actor/agent.rs:330-375 | one round of the processing phase, signals first |
| AgentRuntime.AgentTask.RespondStep | src/actor/agent.rs:379-386 | sends the response, and leaves the loop if that fails |
| AgentRuntime.AgentTask.DrainStep | src/actor/agent.rs:388-402 | handles the next deferred signal, or decides between idling and exit |
| AgentRuntime.AgentTask.Step | src/actor/agent.rs:281-403 | each step the object takes is a step of the state machine and keeps the invariant |
| AgentRuntime.AgentHandle.Send | src/actor/agent.rs:118-121 | one poll queues the message if there is room, fails exactly when the agent has exited, and otherwise waits and changes nothing |
| AgentRuntime.AgentHandle.SendInterrupt | src/actor/agent.rs:128-148 | one poll queues an interrupt on the signal channel if there is room and leaves the inbox alone; it fails exactly when the agent has exited |
| AgentRuntime.AgentHandle.SendHalt | src/actor/agent.rs:150-159 | one poll queues a halt on the signal channel if there is room and leaves the inbox alone; it fails exactly when the agent has exited |
| Embedding.NormalizedIsUnit | src/embedding/backend.rs:161-173 | the normalised vector has length 1, or is 0 exactly when the norm was below epsilon |
| Embedding.NormalizeKeepsDirection | src/embedding/backend.rs:161-173 | the normalised vector times the norm is the vector |
| Embedding.NormalizeIdempotent | src/embedding/backend.rs:161-173 | normalising twice changes nothing |
| Embedding.QuantizeInvertsDequantize | src/embedding/backend.rs:117-130 | quantising a dequantised vector gives it back, for all int8 values |
| Embedding.QuantizeOneError | src/embedding/backend.rs:175-190 | within [-1, 1] the clamp does not fire and the error is at most 1/254 |
| Embedding.ClampFiresIff | src/embedding/backend.rs:186-187 | exactly when the clamp fires, and that it saturates |
| Embedding.QuantizationDrift | src/embedding/backend.rs:175-190 | quantising a normalised vector changes a dot product with b by at most sqrt(d)·‖b‖/254 |
| Embedding.FinishPrecisions | src/embedding/engine.rs:253-273 | both precisions have the configured dimension and differ by at most 1/254 per component; the float one has length 1 and the direction of the leading components, or is 0 when their norm was below epsilon |
| Embedding.MeanPool | src/embedding/engine.rs:232-249 | the nested loops compute the masked mean in place |
| Embedding.PoolingAdds | src/embedding/engine.rs:232-242 | mask sum and masked sum add up over groups of tokens; one token counts with its value times its mask |
| Embedding.PooledScales | src/embedding/engine.rs:244-248 | the pooled value times the mask sum is the masked sum, and 0 if all tokens are masked out |
| Embedding.PoolingIgnoresPadding | src/embedding/engine.rs:235-248 | tokens with mask 0 do not influence the result |
| Embedding.PooledIsMean | src/embedding/engine.rs:244-248 | each pooled component lies between the bounds of the unmasked values |

## Left out

- SessionIsCoherent: assumes that the cache is empty when the session starts and that the tokenizer turns no observation into zero tokens; `EmptyObservationRollback` says exactly what happens otherwise.
- UncachedIff: makes the same two assumptions, and that the prefill succeeds; a session whose prefill fails ends at once.
- SessionPasses: a model that never ends its sequence is not modelled, because a run is given by the finitely many tokens the model emits; the properties of single passes and of reachable states hold for it too.
- IndexRefinesStore: assumes an exact nearest-neighbour scan; approximate index structures, batching by the database, storage and Arrow conversion are not modelled.
- MeanPool: takes one row per token where the source indexes a flat buffer by offset.
- LlamaContext.Decode: a failing call has decoded a first part of its batch, never other positions; one sequence is modelled, so the sequence id does not appear.
- ClosedChannelStarvesHandler: a closed channel is taken to be always ready, so the cooperative budget of the asynchronous runtime, which may let the handler be polled occasionally, is not modelled; the same holds for `CompletesIff` and `ClosedMidTask`.
- AgentTask: what the hooks compute is a parameter of each step.
- AgentHandle: its sends are modelled poll by poll; the order in which several waiting senders are served is not, and a dropped handle stands for the last sender.
- SessionIsClean: needs a sandbox that hints at nothing or at the action itself and raises no cache error; `FaultPanicsIff` says exactly when a fault panics without that.
- RenderedActionIsIntercepted: assumes that generation is neither cancelled nor failing; `BoundaryIsFirstClose` needs no such assumption.
- SessionRollsBackIff: assumes that the fault is within the retry budget and that its observation is built and tokenized; the other failures are those of `FaultPanicsIff` and `RetryBudget`.
- TotalIsExactIff: assumes that the tokenizer succeeds on every text and turns no non-empty text into zero tokens.
- Native library calls, model loading, sampling and GPU settings, and the backend reference count.
- The process and namespace sandboxes; the sandbox is its answer to a payload.
- Error and warning texts; errors keep their constructor, their numbers and their cause.
- Single-precision rounding and NaN, 64-bit wrap-around of counters and positions.
- The tokenizer, ONNX sessions, configuration and serialisation, identifiers, timestamps and logging.
- Swarm routing, escalation and isolated sequences, which add short dispatch only.
