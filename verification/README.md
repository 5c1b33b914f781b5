# fastmlx, verified models of the serving core

fastmlx is a Go server for LLM inference. This project models the parts of it where the difficulty is in the logic: ring-buffer arithmetic for the KV cache, the continuous-batching scheduler, the hash-chained prefix cache, the streaming text parsers, the ordered JSON printers, delivery under backpressure, and six smaller algorithms. Each model follows the branches, constants and error cases of the Go code, and is proved against what that code is for.

`dafny verify dfyconfig.toml` checks everything.

## How it is built

| module | file of the repository | what is proved of it |
|---|---|---|
| `KvCache` (`kvcache.dfy`) | compute/kvcache.go | the plans of both caches, replayed on a token buffer, refine an append-only log: the whole log, or a sliding window with a pinned head |
| `BatchGenerator` (`batch_generator.dfy`) | compute/batch_generator.go | batching is invisible to every sequence over every run whose prefix-cache hits allow it, exactly which; lockstep lasts; budgets are kept |
| `BlockHash` (`blockhash.dfy`) | cache/blockhash.go | the hash index of many models finds the longest common block prefix stored for the model asked about; exactly when two blocks of different models are hashed alike |
| `JsonValue`, `JsonPrinters`, `JsonReader`, `JsonRoundTrip`, `JsonLayout` | api/tool_calling.go, api/anthropic_stream.go, api/anthropic_convert.go, api/structured_output.go | every printer's text is read back as the printed value by an independent reader for the grammar of RFC 8259; its layout is exact |
| `Thinking` (`thinking.dfy`) | api/thinking.go | chunk invariance; the streaming form refines the whole-text form, exactly when |
| `ToolCallFilter`, `ToolCallHold`, `ToolCallProse`, `ToolCallStream`, `ToolCallChunks`, `ToolCallEnvelope` | api/tool_call_stream_filter.go | which envelope is found and what a call in a stream comes to; exactly when the hold-back leaks a marker, a tag or a bracket call, and when sanitizing leaves a prefix; where suppression resumes; output is a subsequence of input; chunk invariance where it holds |
| `CoreDelivery` (`core_delivery.dfy`) | enginecore/core.go | conservation, order, closing and admission over every interleaving |
| `OutputCollector` (`output_collector.dfy`) | engine/output_collector.go | no lost delta, no lost wakeup, a correct count of waiting consumers over every interleaving |
| `SplitTTSText` (`split_tts_text.dfy`) | audioutil/split_tts_text.go | bounds and conservation for every text; greedy packing of uncut parts |
| `Sampling` (`sampler.dfy`) | compute/sampler.go | the nucleus is the smallest set with its mass; exactly which tokens survive the cascade |
| `Pool` (`pool.dfy`) | enginepool/pool.go | what admission evicts, when it stops and how it fails |
| `Responses` (`responses.dfy`) | api/responses_request.go | the timeline of words and calls is conserved, system text comes first, and exactly when reasoning is kept |
| `Versions`, `Select` (`version.dfy`, `select.dfy`) | release/version.go, release/select.go | the order of PEP 440, a total preorder with its exact equality; the earliest of the newest eligible releases |
| `Wrappers`, `Text`, `Sorting`, `Outputs` | (shared) | the option, string, sorting and increment vocabulary the others use |

An object whose methods update it in the source is a class here, and each method is proved equal to a step function on a value (`Rot`, `State`, `Conversation`, ...). Properties over runs are lemmas about those functions. A loop of the source is a loop here. Channels, locks and goroutines appear as atomic steps, one for each critical section, and the run lemmas quantify over every order of those steps. The model forward, SHA-256, `math.Exp` and `math.Log`, clocks, memory readings, random call ids, `ParseVersion` and the ordered JSON decoder behind tool arguments are parameters.

Where the code does not do what one would hope, the code was kept, and the exact condition is a lemma: `KvCache.ZeroUpdateRefines`, `KvCache.WriteRangeHoldsIff`, `BatchGenerator.SafeIffFit`, `BatchGenerator.DecodeAgreesIffSynchronized`, `BatchGenerator.PrefillAgreesIffFresh`, `BatchGenerator.FailedStepLosesNothingIff`, `ToolCallFilter.HoldBackIsExact`, `ToolCallHold.BracketHeldIff`, `ToolCallHold.TagHeldIff`, `ToolCallProse.SanitizedResolvesIff`, `Thinking.StreamingRefinesExtraction`, `Thinking.UnclosedAgreesIff`, `BlockHash.PreimagesMeetIff`, `CoreDelivery.SubmitCountsIff`, `CoreDelivery.FinishSurvivesIff`, `OutputCollector.PutKeepsAllIff`, `OutputCollector.CountsEveryGetIff`, `Responses.ReasoningIsKeptIff` and `Pool.OversizeEvictsEverything`.

Prefix-cache hits are where batching needs a condition. Insert leaves the offset of a sequence that comes with a hit at zero (compute/batch_generator.go:127-152), and both batched paths look at offsets only. The batched decode is promised for caches of one length (compute/batch_generator.go:34-48, compute/models/llama.go:351-361), but its guard (compute/batch_generator.go:212-218) also lets through sequences whose hits differ in length: `HitsOfTwoLengths` is such a run. The batched prefill is promised for fresh caches (compute/batch_generator.go:61-65), and here code and comment disagree: the comment at compute/batch_generator.go:252-254 says that a cohort with a hit is left to the single path, but the guard at compute/batch_generator.go:266-279 takes it. The model carries the length of each cache. It proves over every run that this is the length of the hit and the offset together, so that a batched decode is over caches of one length if and only if the hits of all its sequences have one length, and a batched prefill is over fresh caches if and only if there are none (`SafeIffFit`); that on any other cohort the promise says nothing (`DecodeAgreesIffSynchronized`, `PrefillAgreesIffFresh`); and that batching is invisible over every run whose steps meet this, in particular over every run without hits (`BatchingIsInvisible`, `InvisibleWithoutHits`).

## Model

| member | source | states |
|---|---|---|
| `KvCache.KVCache.Update` | compute/kvcache.go:78-106 | the growable cache's new offset and capacity and the whole plan are those of the step function that `GrowAppends` is about |
| `KvCache.KVCache.Trim` | compute/kvcache.go:110-114 | drops min(offset, n) tokens, keeps the capacity |
| `KvCache.GrowAppends` | compute/kvcache.go:78-106 | replaying an update's plan leaves a buffer whose first offset tokens are the log with the new tokens appended, whatever growth and tail truncation happen |
| `KvCache.GrowthIsExact` | compute/kvcache.go:78-106 | the buffer grows exactly when it cannot take the tokens, by the fewest blocks of 256 that can, after the slack of an unaligned log is cut off; the two flags say so |
| `KvCache.GrowTrims` | compute/kvcache.go:110-114 | a trim leaves the log without its last tokens |
| `KvCache.RotatingKVCache.Update` | compute/kvcache.go:153-158 | one token goes the in-place way, any other number the concatenating way, with the state and plan of the step function |
| `KvCache.RotatingKVCache.UpdateInPlace` | compute/kvcache.go:163-190 | growth in blocks, trim to the window, wrap to the pinned head, cursor and fetch end, as the step function says |
| `KvCache.RotatingKVCache.UpdateConcat` | compute/kvcache.go:195-216 | temporal order, trim to the window less one, append, as the step function says |
| `KvCache.RotatingKVCache.Trim` | compute/kvcache.go:239-244 | offset and cursor move back together |
| `KvCache.UpdateRefines` | compute/kvcache.go:153-216 | every update of at least one token takes a buffer that holds a window of the log to one that holds a window of the longer log, of exactly min(log, maxSize - 1 + n) tokens once full |
| `KvCache.PlanDescribesTheStep` | compute/kvcache.go:148-235 | the plan's offsets, its new length and its fetched length are those of the replayed buffer; one token lies at the planned position and the plan says whether the buffer grew; several lie at its end, at the planned positions of the log |
| `KvCache.RotGrowthIsExact` | compute/kvcache.go:163-216 | while the window is filling, a one-token step grows exactly a full buffer, by a block or to the window; several tokens leave no slack |
| `KvCache.WriteRangeHoldsIff` | compute/kvcache.go:22-30 | the write range is the buffer range that then holds the new tokens if and only if one token is written or the window is not yet full |
| `KvCache.ZeroUpdateRefines` | compute/kvcache.go:153-216 | an update of no tokens keeps the window if and only if the window is not yet full: on a full one it drops a token |
| `KvCache.TrimRefines` | compute/kvcache.go:239-244 | a trim while IsTrimmable holds leaves the log without its last tokens |
| `KvCache.RunRefines` | compute/kvcache.go:140-244 | after any run of such updates and trims, the buffer refines the log the operations describe |
| `KvCache.AllowedIsReached` | compute/kvcache.go:140-244 | every sequence of such operations, each allowed by the scalars it meets, is such a run |
| `KvCache.RotatingIsSlidingWindow` | compute/kvcache.go:116-244 | after any such run the fetched view is the whole log while it is shorter than maxSize, then the first keep tokens followed by a contiguous newest suffix, at least maxSize tokens in all |
| `KvCache.EveryTokenSeesItsWindow` | compute/kvcache.go:153-235 | after any such run, the j-th token of a further update is last but the newer ones in its view and sees min(position + j + 1, maxSize + j) tokens |
| `BatchGenerator.BatchGenerator.Insert` | compute/batch_generator.go:127-152 | an empty prompt is refused; otherwise the next UID starts with the prompt truncated to 32 bits as pending, at offset zero |
| `BatchGenerator.BatchGenerator.Step` | compute/batch_generator.go:158-196 | the live sequences in ascending order each consume the logits of the path taken, up to the first failing forward; one result each, or the error |
| `BatchGenerator.BatchGenerator.TryBatchedStep` | compute/batch_generator.go:207-238 | taken exactly for two or more sequences with one pending token at one offset; all or nothing on failure |
| `BatchGenerator.BatchGenerator.TryBatchedPrefill` | compute/batch_generator.go:258-299 | taken exactly for two or more sequences at offset zero of which some prompt is longer; everyone advances by the padded width; all or nothing on failure |
| `BatchGenerator.BatchGenerator.Consume` | compute/batch_generator.go:308-330 | processors in order, one sample, then counters, finish reason and the prompt cache of a finished sequence |
| `BatchGenerator.BatchGenerator.Remove` | compute/batch_generator.go:334-343 | hands back the cache and forgets only this sequence |
| `BatchGenerator.ConsumeTracks` | compute/batch_generator.go:308-330 | consuming the logits the single forward would give advances a sequence exactly as decoding alone does |
| `BatchGenerator.ProcessedInOrder` | compute/batch_generator.go:308-314 | the logits sampled from are those of the last of the stages in which each processor runs once, in order, on what the one before it left |
| `BatchGenerator.Int32Truncates` | compute/batch_generator.go:127-152 | the pending tokens are the 32-bit numbers with the same low bits |
| `BatchGenerator.DecodeAgreesIffSynchronized` | compute/batch_generator.go:34-48 | the rows of a batched decode agree with the single forward, for every model that keeps the decode contract, if and only if each feeds one token and all caches have one length |
| `BatchGenerator.PrefillAgreesIffFresh` | compute/batch_generator.go:50-67 | the rows of a batched prefill agree with the single forward, for every model that keeps the prefill contract, if and only if no row carries a cache |
| `BatchGenerator.RunInOrder` | compute/batch_generator.go:127-343 | in every state of every run, whatever the logits: a cache is as long as its hit and the offset together, counts and finish flags are those of the tokens emitted, and none follows a finish reason |
| `BatchGenerator.CacheHoldsTheTokens` | compute/batch_generator.go:158-299 | over every run a cache has a slot for each token fed, and without batched prefills no other, if the hits have |
| `BatchGenerator.SafeIffFit` | compute/batch_generator.go:207-299 | in every state of every run: the batched forward a step takes is one the contract covers if and only if the hits of the live sequences have one length, for a decode, or there are none, for a prefill |
| `BatchGenerator.HitsOfTwoLengths` | compute/batch_generator.go:127-218 | a run that decodes a sequence with a hit of three tokens together with one without |
| `BatchGenerator.BatchingIsInvisible` | compute/batch_generator.go:127-343 | for every interleaving of Insert, error-free Step and Remove in which each batched step meets the condition on hits of `SafeIffFit`, what each request ever emitted is a prefix of what it emits alone, and nothing follows a finish reason |
| `BatchGenerator.InvisibleWithoutHits` | compute/batch_generator.go:127-343 | the same for every interleaving without prefix-cache hits, with no condition on its steps |
| `BatchGenerator.OneTokenPerLive` | compute/batch_generator.go:158-196 | a step reports exactly one token for each live UID, ascending, and a UID is live afterwards if and only if no finish reason was reported for it |
| `BatchGenerator.FinishIsExact` | compute/batch_generator.go:308-330 | in every successful step of a run: the token reported is the one the sequence emitted last; "stop" is reported exactly for the end-of-sequence token, "length" exactly for another token that uses up a positive budget; the prompt cache comes with a finish and only then |
| `BatchGenerator.StopsExactlyOnce` | compute/batch_generator.go:308-330 | over every run the end-of-sequence token is emitted at most once and last, a positive budget is not exceeded, and a sequence is live exactly until one of the two has happened |
| `BatchGenerator.FailedStepLosesNothingIff` | compute/batch_generator.go:176-196 | a failing step leaves all sequences as they were if and only if a batched path ran or the very first forward failed |
| `BatchGenerator.StepLockstep` | compute/batch_generator.go:207-299 | after a lockstep decode or any batched prefill the sequences still live have one pending token and the same offset |
| `BatchGenerator.PrefillTakenIff` | compute/batch_generator.go:258-279 | in every state of every run the batched prefill is taken exactly when the model can, two or more sequences are live, none has emitted anything and some prompt has more than one token |
| `BatchGenerator.WidthIsReached` | compute/batch_generator.go:262-283 | the padded width is that of some prompt; with `WidthCovers`, of the longest |
| `BatchGenerator.PrefillReachesLockstep` | compute/batch_generator.go:258-299 | over runs: a batched prefill brings the whole cohort into lockstep |
| `BatchGenerator.LockstepLasts` | compute/batch_generator.go:158-343 | lockstep once reached holds after every later Step and Remove until the next Insert, so every step over two or more live sequences decodes them in one forward |
| `BatchGenerator.NeverOverBudget` | compute/batch_generator.go:308-330 | no sequence of any run generates more than a positive maxTokens, and a live one fewer |
| `BatchGenerator.StepSpendsBudget` | compute/batch_generator.go:158-196 | with positive budgets a step lowers the sum of remaining budgets by at least the number of live sequences |
| `BlockHash.TupleRepr` | cache/blockhash.go:40-57 | renders the Python tuple of the tokens, with its special cases for none and one |
| `BlockHash.TupleIsPython` | cache/blockhash.go:37-57 | that rendering is the decimal numbers joined by ", " in parentheses, a lone one with a comma |
| `BlockHash.DecimalHasValue` | cache/blockhash.go:49-49 | the digits have the value of the number, with a sign and without leading zeros |
| `BlockHash.TupleInjective` | cache/blockhash.go:40-57 | two token lists with one rendering are one list |
| `BlockHash.ComputeBlockHash` | cache/blockhash.go:63-77 | the digest of model name, parent hash or root seed, and rendered tokens, in this order |
| `BlockHash.PreimagesMeetIff` | cache/blockhash.go:59-77 | whatever the model names, two blocks are hashed from the same bytes if and only if they are the same block of one model, or one is a first block, the tokens agree, the other's parent digest ends in the root seed, and the first 20 bytes of that digest complete the other name to this one |
| `BlockHash.PreimageInjective` | cache/blockhash.go:59-77 | so for names of one length the hashed bytes determine model, parent and block |
| `BlockHash.HashFullBlocks` | cache/blockhash.go:83-98 | one chained hash for each full block, none for the rest or for a block size that is not positive |
| `BlockHash.FindSharedPrefix` | cache/blockhash.go:106-124 | returns the chained hashes up to the first one not held, the tokens they cover, and exactly the remaining tokens |
| `BlockHash.HashesAgree` | cache/blockhash.go:59-98 | when the hashed preimages do not collide, two chains of blocks with the same last hash are the same chain of the same model, given names of one length or no digest that ends in the root seed |
| `BlockHash.HeldIffStored` | cache/blockhash.go:100-124 | in an index of any number of models, under the same conditions, a prefix's hash is held if and only if some list stored for this model agrees on these blocks |
| `BlockHash.SharedIsLongestCommonPrefix` | cache/blockhash.go:100-124 | the shared blocks are agreed on by some list stored for this model, and no such list agrees on more |
| `BlockHash.BlocksAreTokens` | cache/blockhash.go:83-98 | agreeing on k full blocks is agreeing on the first k times block-size tokens |
| `JsonPrinters.EscapeString` | api/tool_calling.go:375-411 | appends the quoted string with short escapes, control escapes and, when asked, every non-ASCII character as one or two \u escapes |
| `JsonPrinters.Write` | api/tool_calling.go:332-361 | appends the rendering in the json.dumps style, of any value |
| `JsonPrinters.WriteASCII` | api/anthropic_stream.go:239-268 | the same with non-ASCII escaped |
| `JsonPrinters.WriteCompact` | api/anthropic_convert.go:212-241 | the same without white space |
| `JsonPrinters.WriteIndent` | api/structured_output.go:115-158 | the same over lines indented by depth, empty containers kept on one line |
| `JsonRoundTrip.ValueReads` | api/tool_calling.go:324-361 | in every style, at every depth and before any delimiter, the reader consumes exactly the rendered text and returns the value, members in order and duplicates kept |
| `JsonRoundTrip.SurrogatesJoin` | api/tool_calling.go:395-411 | the surrogate pair written for an astral character joins back to that character |
| `JsonRoundTrip.PrintersDenoteTheValue` | api/tool_calling.go:326-419 | parsing any of the four renderings of any well-formed value returns that value |
| `JsonRoundTrip.Dump` | api/tool_calling.go:326-330 | parsing the printed text returns the value |
| `JsonRoundTrip.DumpASCII` | api/anthropic_stream.go:233-237 | parsing the printed text returns the value, and every byte is in 0x20 to 0x7e |
| `JsonRoundTrip.DumpCompact` | api/anthropic_convert.go:206-210 | parsing the printed text returns the value |
| `JsonRoundTrip.DumpIndent` | api/structured_output.go:109-113 | parsing the printed text returns the value |
| `JsonRoundTrip.AsciiIsPrintable` | api/anthropic_stream.go:229-268 | every rendering in this style, at any depth, is printable ASCII |
| `JsonLayout.EscapesAreExact` | api/tool_calling.go:369-419 | which characters stand for themselves, which have one of the seven short escapes, and which one or two lower-case \u escapes |
| `JsonLayout.VerbatimText` | api/tool_calling.go:363-411 | text without such characters, non-ASCII too when not asked otherwise, is printed as it is |
| `JsonLayout.FlatLayouts` | api/tool_calling.go:324-361 | dump and dumpASCII print the tokens with one space after each comma and colon and nothing else between them, dumpCompact with nothing |
| `JsonLayout.TokensAreTight` | api/anthropic_convert.go:203-241 | no token but a string holds white space |
| `JsonLayout.IndentIsLines` | api/structured_output.go:105-158 | dumpIndent prints, at any depth, lines two spaces deeper per level, with brackets on lines of their own, commas at line ends and empty containers on one line |
| `Thinking.ThinkingParser.Feed` | api/thinking.go:96-150 | state and deltas are those of one scan of the held-back tail and the chunk |
| `Thinking.ThinkingParser.Finish` | api/thinking.go:155-175 | the tail goes to the side the parser is on, except that reasoning that never closed becomes the answer when there was none |
| `Thinking.ExtractThinking` | api/thinking.go:42-76 | paired blocks removed and joined, or the implicit open, or the unclosed block, or the text as it is |
| `Thinking.ScanHoldsBack` | api/thinking.go:96-190 | what is held back is nothing or, by the next row, a tag cut short |
| `Thinking.HeldBackIff` | api/thinking.go:177-190 | a tail is of this kind exactly when it is a proper non-empty prefix of a tag, or empty |
| `Thinking.ScanSplits` | api/thinking.go:96-150 | scanning a text is scanning its first part and then, from the tail held back, its second, wherever it is cut |
| `Thinking.ChunkInvariance` | api/thinking.go:96-150 | for every cut of every text the deltas joined, the tail, all flags and the reasoning so far are those of feeding the text whole |
| `Thinking.ContentIsEmptyIff` | api/thinking.go:96-175 | when no close tag was seen, the overall content is empty if and only if no byte was emitted and no tail is left outside thinking |
| `Thinking.StreamingRefinesExtraction` | api/thinking.go:42-175 | for text whose blocks pair up, with any `<` and partial tags in it and open tags inside reasoning, under every chunking: the streamed content is the text outside the blocks, and with a block the extracted content is that up to trimming if and only if no open tag comes together ahead of a block when the earlier blocks are removed; the extracted reasoning is then that of the blocks joined by newlines, trimmed |
| `Thinking.ReasoningIsStreamed` | api/thinking.go:96-175 | under every chunking the reasoning streamed is that of the blocks, joined |
| `Thinking.ImplicitReasoning` | api/thinking.go:90-175 | after a block opened by the prompt, the reasoning up to its close tag and then that of the blocks |
| `Thinking.UnclosedReasoning` | api/thinking.go:152-175 | of a block that never closes all is streamed as reasoning, a held tail at Finish; when it is recovered as the answer, all but the tail |
| `Thinking.RemovalOpens` | api/thinking.go:42-60 | such a text in which one does |
| `Thinking.UnclosedBlock` | api/thinking.go:63-76 | what the stream and the extractor each give for a block that never closes |
| `Thinking.UnclosedAfterBlocks` | api/thinking.go:152-175 | one that never closes after blocks that did is streamed as reasoning and not recovered, under every chunking |
| `Thinking.UnclosedAgreesIff` | api/thinking.go:42-175 | for such a block both agree up to trimming if and only if it is blank, or opened the text and is more than a partial tag |
| `Thinking.ImplicitOpen` | api/thinking.go:42-175 | with the block opened by the prompt, under every chunking: the stream gives the answer text; so does the extractor without further blocks, while with one it takes the first reasoning and its close tag for content |
| `ToolCallFilter.NewMarkers` | api/tool_call_stream_filter.go:52-64 | whichever markers are configured, none that the filter looks for is empty |
| `ToolCallFilter.FindStartEnvelope` | api/tool_call_stream_filter.go:80-125 | the candidate that `FindStartIsExact` is about, by the source's loops |
| `ToolCallEnvelope.FindStartIsExact` | api/tool_call_stream_filter.go:76-125 | from the text and the markers alone: what is found is the envelope at the first place where one starts, in this order a pair with its own close marker, a namespaced tag with the close tag of its name, a whole bracket call, a one-sided marker; nothing exactly when none starts |
| `ToolCallEnvelope.BracketLenIff` | api/tool_call_stream_filter.go:42-45 | a text starts with a bracket call of n characters exactly when those are a prefix, white space, a name, and the bracket or arguments up to their first end |
| `ToolCallFilter.FindStartWithin` | api/tool_call_stream_filter.go:80-125 | an envelope found lies within the text and consumes some of it; when none is found no registered marker occurs |
| `ToolCallFilter.NoMarkerAhead` | api/tool_call_stream_filter.go:80-125 | no registered pair or one-sided marker occurs anywhere ahead of the envelope found |
| `ToolCallFilter.ComputePartialPrefixLen` | api/tool_call_stream_filter.go:134-145 | the length found by the downward search |
| `ToolCallFilter.PartialPrefixIsLongest` | api/tool_call_stream_filter.go:134-145 | no longer suffix of the text is a proper prefix of the marker |
| `ToolCallFilter.ComputePartialSuffixLen` | api/tool_call_stream_filter.go:176-227 | the hold-back: the longest partial marker, capped, unless a bracket call is unresolved |
| `ToolCallFilter.CompletableIff` | api/tool_call_stream_filter.go:134-145 | some later text completes a marker that starts in the emitted part if and only if the partial marker at the end is longer than what is kept |
| `ToolCallFilter.HoldBackIsExact` | api/tool_call_stream_filter.go:176-227 | the emitted part gives away the start of a completable marker if and only if more than 128 characters of it are there and no bracket call is unresolved; never for a marker of at most 129 |
| `ToolCallFilter.NoMarkerSlips` | api/tool_call_stream_filter.go:329-390 | when no envelope is found, a pair or one-sided marker that starts in the text, however it is completed later, is held back if and only if at most 128 characters of it are there or a bracket call is unresolved; so always one of at most 129 |
| `ToolCallHold.TagHeldIff` | api/tool_call_stream_filter.go:147-227 | the same of every namespaced tag |
| `ToolCallHold.TagHoldIsExact` | api/tool_call_stream_filter.go:147-227 | the emitted part gives away the start of a tag that can still be completed if and only if more than 128 characters of one are there and no bracket call is unresolved |
| `ToolCallHold.BracketHeldIff` | api/tool_call_stream_filter.go:176-227 | a bracket call that starts in the text, however it is completed later, is held back if and only if neither a `]` nor a further bracket prefix has come after its start, or a registered marker with a `[` in it reaches back to it |
| `ToolCallHold.HoldsOnlyStarts` | api/tool_call_stream_filter.go:173-227 | what is held back starts a marker, or a tag, or is an unresolved bracket call, or is the last 128 characters of a longer such start |
| `ToolCallHold.CallWithArrayLeaks` | api/tool_call_stream_filter.go:206-227 | a call with an array among its arguments, cut after the array: both parts are emitted, though the whole is suppressed |
| `ToolCallHold.FoundTag` | api/tool_call_stream_filter.go:42-44 | what the search for a namespaced open finds is one |
| `ToolCallHold.TagIsFound` | api/tool_call_stream_filter.go:42-44 | and none starts earlier |
| `ToolCallFilter.SanitizePrefixBeforeSuppression` | api/tool_call_stream_filter.go:278-325 | returns the prose that the next rows are about |
| `ToolCallProse.SanitizedIsSubseq` | api/tool_call_stream_filter.go:278-325 | it is the text with characters deleted |
| `ToolCallProse.SanitizedSameIff` | api/tool_call_stream_filter.go:275-325 | nothing is dropped exactly when every bracket prefix has a bracket that closes it |
| `ToolCallProse.SanitizedResolvesIff` | api/tool_call_stream_filter.go:275-325 | it holds a bracket prefix that no bracket closes if and only if, in the text, a prefix that none closes stands inside another one: what is before it and what comes after it, further prefixes left out, make one up |
| `ToolCallProse.SanitizedResolves` | api/tool_call_stream_filter.go:275-325 | so it holds none when no dropped prefix comes right after the start of another |
| `ToolCallProse.NestedPrefixSurvives` | api/tool_call_stream_filter.go:275-325 | a text with one prefix inside another, of which an unresolved prefix is left |
| `ToolCallFilter.ToolCallStreamFilter.Feed` | api/tool_call_stream_filter.go:329-390 | terminates because the buffer strictly shrinks, and leaves the state and output of draining it |
| `ToolCallFilter.ToolCallStreamFilter.Finish` | api/tool_call_stream_filter.go:395-421 | drops what was being suppressed and a tail that looks like a marker, releases the rest |
| `ToolCallEnvelope.FinishIsExact` | api/tool_call_stream_filter.go:229-273 | of a tail held back whole, Finish drops exactly one that starts an opening marker, or starts with a bracket prefix, or shares its start with a one-sided marker, or is "<", or a tag cut after its colon |
| `ToolCallEnvelope.CallIsDropped` | api/tool_call_stream_filter.go:335-390 | prose, an opening marker, a body and its close marker, and anything after: the prose is emitted, the call dropped, and the rest treated as a stream of its own |
| `ToolCallEnvelope.CallIsDroppedInChunks` | api/tool_call_stream_filter.go:335-390 | the same under every chunking, for ordinary streams |
| `ToolCallEnvelope.BuiltinEncloses` | api/tool_call_stream_filter.go:52-64 | this is so for the built-in markers, whatever is configured, and for the configured pair |
| `ToolCallStream.SilentForever` | api/tool_call_stream_filter.go:329-421 | once a one-sided marker was seen, no chunk sequence and no Finish emits anything |
| `ToolCallStream.OneSidedSilences` | api/tool_call_stream_filter.go:329-390 | the feed that finds a one-sided marker emits the prose ahead of it and silences the filter |
| `ToolCallStream.StreamSettles` | api/tool_call_stream_filter.go:329-390 | after every feed of every stream the filter lets text through, is silent for good, or is dropping with less than one close marker held |
| `ToolCallStream.SuppressionResumes` | api/tool_call_stream_filter.go:340-360 | while dropping, however the stream is cut, nothing is emitted and less than one close marker is kept until the marker's first occurrence in the joined stream is complete, and the filter resumes exactly after it |
| `ToolCallStream.EnvelopeResumes` | api/tool_call_stream_filter.go:335-388 | the same from the feed that finds the envelope on: the prose ahead of it is all that is emitted until then |
| `ToolCallChunks.ChunkInvariance` | api/tool_call_stream_filter.go:329-390 | with tag-shaped paired markers of at most 129 characters, such as the built-in one, every stream without a whole bracket prefix or more than 128 characters of an unfinished tag gives the same output and the same state however it is cut |
| `ToolCallChunks.FoundStays` | api/tool_call_stream_filter.go:80-125 | in such a stream further text does not change the envelope found |
| `ToolCallChunks.DrainSplits` | api/tool_call_stream_filter.go:335-390 | in such a stream, from any state, handling a part and then the rest after what is held of it is handling both at once |
| `ToolCallStream.OutputIsSubseq` | api/tool_call_stream_filter.go:278-421 | over a whole stream, with or without Finish, what was emitted followed by what is held is the input with characters deleted |
| `CoreDelivery.Core.Submit` | enginecore/core.go:94-112 | refused when not running or full; otherwise a new open slot on a fresh channel, counted |
| `CoreDelivery.Core.Deliver` | enginecore/core.go:185-207 | unknown ids are dropped; otherwise the increment, merged into any backlog, is sent if there is room and kept if not; a finished one sent closes the channel |
| `CoreDelivery.Core.FlushPending` | enginecore/core.go:210-231 | every slot is retried once, in some order, and the result says whether any backlog is left |
| `CoreDelivery.Core.CloseLocked` | enginecore/core.go:234-244 | closes the channel, drops the slot, counts down; never a second close |
| `CoreDelivery.Core.Shutdown` | enginecore/core.go:247-259 | every slot's channel is closed and no slot is left |
| `CoreDelivery.DeliverKeeps` | enginecore/core.go:185-207 | a delivery keeps the invariant of every channel: received, queued and pending add up to what was produced |
| `CoreDelivery.DeliverSendsAtOnce` | enginecore/core.go:185-207 | a delivery to a channel with room queues one increment, with the backlog before it merged in, and leaves no backlog |
| `CoreDelivery.FlushKeeps` | enginecore/core.go:210-231 | so does a flush in any order, and it keeps the admission count |
| `CoreDelivery.ShutdownKeeps` | enginecore/core.go:247-259 | so does a shutdown, after which each channel cut off has sent a prefix of what was produced |
| `CoreDelivery.SubmitCountsIff` | enginecore/core.go:94-112 | admission happens exactly when running and below the limit, and inFlight goes on being the number of open slots if and only if the id is a new one |
| `CoreDelivery.RunKeeps` | enginecore/core.go:94-267 | over every interleaving of submits, deliveries, flushes, receives and shutdowns: text and token deltas are conserved in order on every channel, a channel is closed once, after its finished increment is queued or at shutdown, and inFlight equals the open slots within the limit |
| `CoreDelivery.DrainedMeansAll` | enginecore/core.go:92-112 | a consumer that has drained a closed channel has read exactly what was produced, the finished increment last and with the cumulative fields of the last one produced, or a prefix of it if a shutdown cut it off |
| `CoreDelivery.FlushClearsRoomy` | enginecore/core.go:210-231 | a slot whose channel has room has no backlog after a flush, whatever the order of the walk |
| `CoreDelivery.FinishSurvivesIff` | enginecore/core.go:196-206 | while a finished increment waits in the backlog, a further one keeps the end in sight if and only if it is finished itself |
| `OutputCollector.RequestOutputCollector.Put` | engine/output_collector.go:43-56 | stores, merges or replaces, and signals |
| `OutputCollector.RequestOutputCollector.TakeLocked` | engine/output_collector.go:113-122 | hands out the buffered output and clears buffer and signal together |
| `OutputCollector.RequestOutputCollector.Clear` | engine/output_collector.go:95-105 | drops the output and gives back a waiting count exactly when one was held |
| `OutputCollector.MergeAssociative` | engine/output_collector.go:153-161 | how puts are grouped into merges does not matter |
| `OutputCollector.BufferedIsTheLast` | engine/output_collector.go:43-161 | after any puts the buffered output has all their deltas and the newest error, and everything else from the last one; without aggregation it is the last one |
| `OutputCollector.ActKeeps` | engine/output_collector.go:43-147 | every step of producer, consumer or clear keeps: a signal means an output, an output means a signal or a consumer about to look, deltas conserved, marks right |
| `OutputCollector.RunKeeps` | engine/output_collector.go:13-161 | the same over every interleaving on any number of collectors, with the global count equal to the number marked waiting |
| `OutputCollector.NoLostWakeup` | engine/output_collector.go:68-92 | a consumer at the select while an output is buffered is signalled and takes exactly that output |
| `OutputCollector.CountIsRight` | engine/output_collector.go:13-16 | the count is positive if and only if some consumer is inside a Get that no Clear has interrupted |
| `OutputCollector.CountsEveryGetIff` | engine/output_collector.go:94-110 | the count is the number of consumers inside Get if and only if no Clear has fallen into a Get still under way, and less otherwise |
| `OutputCollector.ClearHidesAConsumer` | engine/output_collector.go:94-110 | a run after which a consumer is parked and the count is zero |
| `OutputCollector.PutKeepsAllIff` | engine/output_collector.go:43-56 | a put loses no delta if and only if the collector aggregates, or nothing was buffered, or what it replaces was empty |
| `OutputCollector.ErrorsSurvive` | engine/output_collector.go:153-161 | after any puts the buffered output has an error if and only if one of them did |
| `SplitTTSText.SplitSentences` | audioutil/split_tts_text.go:138-165 | the segments of the scan that `SentencesSplit` and `SentencesHoldNoCut` are about |
| `SplitTTSText.SplitClauses` | audioutil/split_tts_text.go:172-191 | the segments of the scan that `ClausesSplit` is about |
| `SplitTTSText.SentencesSplit` | audioutil/split_tts_text.go:133-165 | the segments with the dropped white space between them are the text |
| `SplitTTSText.SentencesHoldNoCut` | audioutil/split_tts_text.go:133-165 | no segment holds a newline or white space after a sentence mark |
| `SplitTTSText.SentenceGapsAreCuts` | audioutil/split_tts_text.go:133-165 | every cut takes out all of the white space after an end mark, or all of the newlines in a row: there is no other cut |
| `SplitTTSText.ClausesSplit` | audioutil/split_tts_text.go:167-191 | the segments with the dropped white space are the text, and a clause mark is only ever a segment's last character |
| `SplitTTSText.ClauseGapsAreCuts` | audioutil/split_tts_text.go:167-191 | every cut takes out all of the white space after a clause mark |
| `SplitTTSText.ComputeKeepNonEmpty` | audioutil/split_tts_text.go:120-131 | trimmed pieces, empty ones dropped |
| `SplitTTSText.KeepKeepsInk` | audioutil/split_tts_text.go:120-131 | every kept piece has ink at both ends and no ink is lost |
| `SplitTTSText.SplitTTSText` | audioutil/split_tts_text.go:38-116 | the chunks that the next rows are about, with termination of both loops |
| `SplitTTSText.ChunksKeepTheText` | audioutil/split_tts_text.go:38-116 | for every text and every budget of at least one: chunks are trimmed and 1 to maxChars long, their non-space characters in order are exactly the text's, and there are none if and only if the text is blank |
| `SplitTTSText.PackingIsGreedy` | audioutil/split_tts_text.go:99-110 | parts that fit are never cut: each chunk is a group of whole parts joined by spaces, and none could have taken the next part |
| `SplitTTSText.WholeSentences` | audioutil/split_tts_text.go:38-116 | a text whose sentences fit is packed this way from its sentences |
| `SplitTTSText.WholeClauses` | audioutil/split_tts_text.go:59-97 | a long sentence whose clauses fit is packed this way from its clauses |
| `SplitTTSText.LongSentenceStandsAlone` | audioutil/split_tts_text.go:59-97 | a sentence over the budget shares no chunk with its neighbours |
| `SplitTTSText.CutIsExact` | audioutil/split_tts_text.go:66-76 | a word over the budget is cut into pieces of exactly the budget, in order, and the rest |
| `Sampling.ApplyTopP` | compute/sampler.go:79-108 | in place: a token survives exactly when the mass ranked at or below it exceeds 1 - top_p |
| `Sampling.SweepCumulative` | compute/sampler.go:88-101 | the ascending sweep gives each position the mass of itself and everything ranked below it |
| `Sampling.NucleusMass` | compute/sampler.go:74-108 | the kept mass is at least top_p and strictly less without the lowest-ranked kept token |
| `Sampling.NucleusIsSmallest` | compute/sampler.go:74-78 | no smaller set of tokens has mass top_p |
| `Sampling.Argmax` | compute/sampler.go:63-72 | the first index of the highest logit, -1 for an empty row |
| `Sampling.TopIndices` | compute/sampler.go:157-173 | exactly the tokens with fewer than k ahead of them, ties toward the lower index |
| `Sampling.TopSize` | compute/sampler.go:157-173 | there are min(k, n) of them |
| `Sampling.ApplyTopK` | compute/sampler.go:139-153 | in place: exactly these survive; nothing happens for k out of range |
| `Sampling.ApplyMinP` | compute/sampler.go:114-135 | in place: dropped exactly when below the shifted maximum and not among the guaranteed tokens |
| `Sampling.MinPIsARatio` | compute/sampler.go:110-124 | the comparison of logits is the comparison of probabilities with min_p times the largest |
| `Sampling.ApplyFilters` | compute/sampler.go:46-59 | in place: top-p, then min-p, then top-k, each when enabled, and nothing when greedy |
| `Sampling.CascadeIsExact` | compute/sampler.go:41-59 | for a sampler that is not greedy the result is the row masked to the nucleus, then to the tokens at least min_p times as likely as the likeliest left or guaranteed, then to the top k, each when enabled |
| `Sampling.SurvivorsAreNuclear` | compute/sampler.go:41-59 | with top-p on nothing outside the nucleus survives; alone it leaves exactly the nucleus |
| `Sampling.TopKSurvivors` | compute/sampler.go:137-153 | with top-k on exactly that many survive, or all that were left |
| `Sampling.TiesInTheNucleus` | compute/sampler.go:79-108 | of equal logits top-p keeps the later ones |
| `Sampling.TiesInTheTop` | compute/sampler.go:155-173 | and top-k the earlier ones |
| `Sampling.CascadeKeepsTheTop` | compute/sampler.go:46-59 | for every setting and every normalised row, survivors are closed upward in strictly greater logits and include a highest one, and top-k leaves at most top_k |
| `Pool.Pool.Register` | enginepool/pool.go:87-99 | adds or replaces the entry, unloaded, keeping registration order without duplicates |
| `Pool.Pool.FindLRUVictim` | enginepool/pool.go:160-192 | the head of the eviction order, if any |
| `Pool.EvictionOrderSorted` | enginepool/pool.go:166-192 | the evictable models strictly ordered by access time, ties by id |
| `Pool.UnloadFirst` | enginepool/pool.go:228-234 | unloading the victim leaves exactly the rest of the order |
| `Pool.Pool.Admit` | enginepool/pool.go:206-248 | terminates for any readings; unknown model, no ceiling, or the outcome and the evictions in order that the next rows are about; only the evicted engines are cleared |
| `Pool.UnloadedAllIs` | enginepool/pool.go:228-234 | the engines of the evicted models are gone and nothing else changes |
| `Pool.EvictsOldestFirst` | enginepool/pool.go:194-248 | only loaded, unpinned models without requests in flight are evicted, each used before every such model that stays, or at the same time with a lower id |
| `Pool.StopsAtTheFirstFit` | enginepool/pool.go:221-247 | every earlier reading was over the ceiling, admission if and only if the last one fits, and a failure leaves nothing evictable, too-large exactly when the size alone exceeds the ceiling |
| `Pool.OversizeEvictsEverything` | enginepool/pool.go:221-247 | a model larger than the ceiling is refused only after everything evictable was evicted |
| `Pool.TouchedGoesLast` | enginepool/pool.go:129-135 | a touch later than all others makes an evictable model the last to go |
| `Responses.FlushPendingToolCalls` | api/responses_request.go:46-69 | the pending calls join the last assistant turn of this input or make a new one, with the waiting reasoning; nothing happens without calls |
| `Responses.FlushMergesIff` | api/responses_request.go:40-69 | calls join the last message exactly when it is an assistant turn of this input that takes calls, and it keeps its other fields; otherwise a turn of their own follows |
| `Responses.ConsolidateSystemMessages` | api/responses_request.go:73-90 | the result that `OneSystemMessage` is about |
| `Responses.OneSystemMessage` | api/responses_request.go:71-90 | when there is any system text all of it is in the first message and no other is a system message |
| `Responses.SystemComesFirst` | api/responses_request.go:171-189 | for every input, the instructions, the developer and system items in order and then the previous system texts are, joined, the first message, and no other is a system message |
| `Responses.CallsTakeReasoning` | api/responses_request.go:40-69 | waiting calls end up in one assistant turn, the last message, together with the reasoning that waits |
| `Responses.ItemKeepsThoughtsIff` | api/responses_request.go:204-284 | an item adds its reasoning to what turns carry or waits for one, and loses an earlier one if and only if it is a further reasoning item while one waits, or it flushes calls with reasoning into a turn that has its own |
| `Responses.ReasoningIsKeptIff` | api/responses_request.go:201-288 | a scan of the items alone (does reasoning wait, do calls, can the last turn take calls and has it reasoning) says how many reasonings are lost; the turns of the result carry all of them, one each and in order, if and only if the scan finds none overwritten and none left at the end |
| `Responses.ItemView` | api/responses_request.go:204-284 | that scan follows the conversation, from any state of it |
| `Responses.FirstReasoningIsLost` | api/responses_request.go:239-250 | two reasoning items before an assistant message: the turn carries the second only |
| `Responses.ConvertResponsesContent` | api/responses_request.go:107-153 | text parts joined by newlines, or the converted parts when there is an image |
| `Responses.ContentIsRead` | api/responses_request.go:104-153 | text parts, typed or bare, become their texts joined by newlines; with an image every part is kept in order as a text or an image part |
| `Responses.ConvertItem` | api/responses_request.go:204-284 | one turn of the loop over items, for each of the four item types and for anything else |
| `Responses.ConvertResponsesInputToMessages` | api/responses_request.go:171-288 | the messages that the next rows are about, for text, item lists and anything else |
| `Responses.FlushKeepsTimeline` | api/responses_request.go:40-69 | a flush puts the waiting calls next in the timeline, merged or not |
| `Responses.ItemAddsItsLine` | api/responses_request.go:204-284 | each item adds exactly its own words or call to the timeline |
| `Responses.CallCarriesItsItem` | api/responses_request.go:252-275 | a call goes by its call id, else its item id, else a new one, has its item's name, and arguments that are the value of their text when that parses as an object or an array |
| `Responses.OutputMeetsItsCall` | api/responses_request.go:252-283 | an output with the call id of a call answers it in the timeline under the same id |
| `Responses.MessageItemSpeaks` | api/responses_request.go:92-236 | a message speaks in its role, nobody as the user; a developer or the system adds system text |
| `Responses.SummaryIsRead` | api/responses_request.go:239-250 | a reasoning item brings its summary texts |
| `Responses.ConvertKeepsTheTimeline` | api/responses_request.go:171-288 | for every input, the words, calls and call outputs of the result are those of the previous messages and then those of the items, one each, in item order; so an output follows all calls of earlier items |
| `Responses.PreviousAreUntouched` | api/responses_request.go:167-181 | the previous messages come first, each exactly as it was: none gains calls |
| `Versions.ComputeCompare` | release/version.go:178-195 | the comparison the next rows are about, by the source's loops |
| `Versions.CompareIsTheOrder` | release/version.go:175-314 | Compare of two parsed versions is -1, 0 or 1 as PEP 440 orders them: epoch, first differing release number, pre, post, dev and local segment, each stated on the fields alone |
| `Versions.ReleaseDecides` | release/version.go:175-184 | a smaller epoch or a smaller first differing release number decides whatever the suffixes |
| `Versions.CompareOrders` | release/version.go:175-314 | antisymmetric, total and transitive over all versions, and zero if and only if the keys are the same |
| `Versions.TrailingZerosDoNotMatter` | release/version.go:288-294 | release zeros at the end change no comparison on either side |
| `Versions.SuffixesAreOrdered` | release/version.go:197-265 | PEP 440's chain from dev over a, b, rc, final and local to post, whatever the numbers, with dev and post inside a pre-release |
| `Select.SelectLatestStableRelease` | release/select.go:21-46 | the earliest of the newest eligible releases, or none exactly when none is eligible |
| `Select.ChosenIsNewest` | release/select.go:21-46 | by that order the release chosen precedes no eligible one, and every eligible one ahead of it precedes it |
| `Select.EligibleIff` | release/select.go:26-40 | eligible is, from its fields, what is published, not flagged, and tagged after any number of "v" with a version without pre or dev segment |

## Left out

- Tensor contents, RoPE, the categorical draw and XTC: the forward is an abstract function of the tokens fed so far, and failing forwards are assumed to leave caches untouched.
- The backend half of the KV cache, which the source describes at compute/kvcache.go:5-13 without containing it: growing, reordering, trimming and writing a buffer are modelled as that description and the plans have it. On the concatenating path of a full window the plan's write range counts log positions (compute/kvcache.go:211), so there the write is at the end of the buffer; `WriteRangeHoldsIff` says that it is elsewhere where the range says.
- `RotatingKVCache` with Keep outside 0 to MaxSize - 1, and its Trim when IsTrimmable is false: callers keep to both. ArraysCache has no index arithmetic.
- KvCache.RotatingKVCache.Trim: states the scalars only; that the buffer still holds the log is `TrimRefines`, under IsTrimmable.
- BatchGenerator.BatchingIsInvisible: for error-free steps, and for runs whose batched steps the models' contracts cover, because nothing is promised of any other (see above). How a backend fails on caches of unequal length is not part of this model.
- Sharing of a sampler or a logits processor between sequences: each sequence owns its own.
- No hash function is assumed injective: only the finitely many preimages actually hashed must not collide. That no digest in use ends in the root seed is assumed only between models whose names differ in length.
- Go's encoding/json decoder: the round trip is against a reader written from sections 2 to 7 of RFC 8259. Characters are Unicode scalar values, so lone surrogates and invalid UTF-8 do not occur.
- Text as bytes: the two streaming parsers are modelled over character sequences. Their markers are ASCII, so cutting and matching are the same, but lengths count characters; the cap of 128 and the 129 of `HoldBackIsExact` are in that unit.
- ToolCallChunks.ChunkInvariance: for streams without a whole bracket prefix. With one the output can depend on the cut, by a `]` or a further prefix among the arguments (`CallWithArrayLeaks`, `BracketHeldIff`) or by another marker there; beyond 128 characters of a tag it can too (`TagHeldIff`), and for markers of other shapes, of which one can start inside another. After a one-sided marker only silence is claimed (`SilentForever`).
- Thinking.StreamingRefinesExtraction: for text in which every open tag outside reasoning begins a block and every close tag ends one; stray tags are treated differently by the two parsers by design.
- The scheduler behind enginecore/core.go: increments arrive in any order. Contexts, idle ticks, the wake channel and blocking on submitCh are not modelled.
- CoreDelivery.RunKeeps: for runs in which an id is not submitted again while in flight and nothing is produced after a finished increment; `SubmitCountsIff` and `FinishSurvivesIff` show what each of the two is needed for.
- Contexts and cancellation in the collector beyond the step that leaves the select; a second consumer, which the source rules out.
- SplitTTSText.SplitTTSText: a budget of zero or less is excluded, since the source's hard cut then never ends or fails.
- Rounding: probabilities and logits are real numbers, and a row handed to top-p is normalised.
- 64-bit overflow of sizes in Admit; the error texts; the lock around Admit, which the caller holds.
- ConvertResponsesTools, and the parts a content list is converted to beyond what `ConvertResponsesContent` states.
- ParseVersion and Version.String: versions are given parsed.
- HTTP routes, MCP transports, subprocesses, checkpoint reading, formatters and validators: input and output, or one-branch facts.
