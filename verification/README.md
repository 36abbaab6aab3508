# Verification model of moty

moty runs large mixture-of-experts language models on ordinary machines. Most of its code
is a fast form of something simple: speculation instead of one token at a time, a cache
filled by two concurrent loaders instead of a read from disk, one server for several
conversations instead of one process each, hash tables instead of scans, bit tricks instead
of dot products. This project models those fast forms in Dafny, keeps their branches, edge
cases and constants, and proves what each owes to its simple form. Where the code falls
short of it, the exact condition under which it does not is proved instead.

| file | models |
|---|---|
| `LanguageModel.dfy` | the model behind every loop, and what a KV row is worth: it is right only on top of the rows it was computed from |
| `Generate.dfy` | the library's generate call: prefill in chunks, plain and lookahead decoding, abort, failures, refusals |
| `SpecDecode.dfy` | self-speculative greedy decoding with drafts from any source |
| `Nucleus.dfy` | the target distribution: softmax cut to its nucleus |
| `Sampling.dfy` | drawing from a distribution, and rejection sampling of deterministic drafts, over the reals |
| `Pilot.dfy` | the speculative expert loader and the barrier between it and the main thread |
| `PipePool.dfy` | the lock-free job pool that loads the experts of a batch |
| `MoeCache.dfy` | the mixture-of-experts layer over pinned slots, LRU cache and loads |
| `KvDisk.dfy` | the conversation on disk, under crashes between any two writes |
| `MuxServer.dfy` | several conversations served at once: prefix reuse, ragged batches |
| `AllocTables.dfy` | the two open-addressing tables of the allocator |
| `Ownership.dfy` | who gives a block back: trackers over open, generate and close |
| `HeadSelect.dfy` | the two-stage output head: quickselect, sampled threshold, candidate blocks |
| `HeadPopcount.dfy` | its first-stage scores from bit-planes and popcounts |
| `Int4Dot.dfy` | dot products of 4-bit weights in AVX-512 lanes against the portable loops |
| `TensorIndex.dfy` | the tensor index and the lookups through it |
| `Mla.dfy` | multi-head latent attention by absorption against rebuilding keys and values |
| `Counting.dfy`, `Wrappers.dfy` | the pigeonhole argument the tables and the cache share, and optional values |

## What was found

Some properties do not hold of the code for all inputs. Each is stated with its exact
condition.

- The context check of a generate call adds conversation, prompt and budget as `int`, and
  nothing bounds the budget: with one near the largest `int` the sum wraps, the call is let
  through, and decoding runs past the last position. `Generate.LetThroughFits` proves that
  a call let through fits the context if and only if the sum does not exceed the largest
  `int`; `Generate.LargestBudget` is a call that runs out of a context of eight.
- A generate call can report success with a conversation that is ahead of its KV: when the
  abort flag cuts the prefill between two chunks and is cleared by another thread before
  the final reading of it. `Generate.MotyModel.Generate` proves that a successful call
  leaves a valid state if and only if this did not happen (`Lost`); `Generate.ClearedAbort`
  is a call that succeeds and leaves an invalid one.
- The job pool stores the job count before it publishes the cursor that carries the
  generation. `PipePool.SafeAsCoded` proves that every schedule is safe if and only if no
  batch has more jobs than the one before it; `PipePool.PoolIsSafe` that storing both in
  one step makes it safe for all batches.
- MORE, after an answer that used up its budget on a token emitted at the top of a round,
  sends that token again, because it is not in the KV. `SpecDecode.AnswerThenMore` proves
  that answer, interrupted or not, and continuation are one longer decode otherwise, and
  `SpecDecode.EndsAtTop` says from drafts, interruptions and model when it happens: without
  drafts, after every full answer.
- A realloc that libc moves and that is then refused a mapping gives the block up and yet
  leaves it in its tracker, and a free under no tracker leaves a tracked block in its
  tracker. `Ownership.Process.Realloc` and `Ownership.Process.Free` prove when the books
  stay right. The second case arises with a head shortlist: its tables are allocated under
  the model's tracker (`c/nn/head.c:17`, called at `c/runtime/runtime.h:309`) and freed by
  the engine's close under none (`c/runtime/runtime.h:339`), so that emptying the tracker
  frees them again: `Ownership.ShortlistIsReleasedTwice`.
- A rehash of the registry of big blocks that gets no memory leaves it by a jump while the
  allocation around it holds the registry's lock (`c/nn/alloc.c:59`, `77-80`), which is
  never given back: the next thread to map, measure or free a block hangs, the cleanup of
  the failed call included. `AllocTables.RunRegistry` proves for every run that calls are
  answered as by a map until then and hang from then on; `AllocTables.RegistryHangs` is such
  a run. The table left behind counts its entries as none, consistent if and only if no cell
  was in use (`AllocTables.Table.Put`, `AllocTables.RegistryMiscounts`), but is never read.
- A conversation that fills the context up to the margin the loader keeps is saved but
  reopens empty: `KvDisk.LoadReturns`. The multiplexed server reaches that margin with a
  single prompt: `MuxServer.LongPromptIsForgotten`.

## Model

| member | source | states |
|---|---|---|
| LanguageModel.Forward | c/engines/glm.c:3658-3669 | a batched forward at a position leaves the rows of the whole history and returns the argmax after every fed token, whatever lay at or above the position |
| LanguageModel.ReadAhead | c/api/api.c:309-318 | the argmaxes of one forward over a token and its proposals are the model's tokens after each of them |
| LanguageModel.TakeNext | c/api/api.c:314-320 | accepting one agreed proposal leaves the remaining argmaxes right for the rest |
| LanguageModel.KeepPrefix | c/engines/glm.c:4028 | keeping a prefix of the rows keeps exactly the rows of that prefix of the history |
| Generate.PlainDecodeIsGreedy | c/api/api.c:219-227 | the one-step-per-token loop emits the greedy tokens up to and including the first that stops, for the right reason, and leaves that token pending |
| Generate.PlainDecodeExtends | c/api/api.c:296-331 | what is emitted is never withdrawn |
| Generate.TrackStep | c/api/api.c:296-298 | one emitted token either ends decoding as the plain loop would or leaves the loop where the plain loop would be |
| Generate.CutBySawTheFlag | c/api/api.c:281-282 | a prefill is cut only by a flag that was up, and fails only with an operation that failed |
| Generate.StickyNeverLoses | c/api/api.c:250-254 | if a raised flag stays raised during the call, no success is reported for a cut prefill |
| Generate.ClearedAbort | c/api/api.c:206 | a concrete call whose flag is cleared between the cut and the last reading: it reports success and its state is invalid |
| Generate.MotyModel.Reset | c/api/api.c:208-215 | an empty conversation, whatever the rows still hold |
| Generate.MotyModel.Engine | c/api/api.c:281-283 | a forward that fails part of the way leaves the rows below it intact |
| Generate.MotyModel.Prefill | c/api/api.c:255-285 | the prompt's rows follow the conversation's, no position beyond the context is touched, and how the prefill ended is decided by the first failure or the first raised flag at a chunk boundary |
| Generate.MotyModel.Propose | c/api/api.c:299-306 | proposals are what followed the longest (at most 3) matching suffix of the answer at its first occurrence in the draft, at most as many as draft_k, the buffer and the budget allow |
| Generate.MotyModel.Accept | c/api/api.c:314-320 | accepted proposals are exactly the plain loop's next tokens, each emitted and stopped on as there |
| Generate.MotyModel.Verify | c/api/api.c:307-326 | one verification, however many proposals it rejects, leaves the KV counting exactly the kept tokens |
| Generate.MotyModel.Step | c/api/api.c:327-330 | one fed token extends the rows and yields the next argmax |
| Generate.MotyModel.FeedNext | c/api/api.c:299-330 | whether the next token is fed ahead with proposals or alone, decoding ends or goes on as the plain loop would |
| Generate.MotyModel.Decode | c/api/api.c:286-332 | for every draft, width, budget, stop set and callback the decode loop emits a prefix of the plain loop's answer, and without abort ends in the plain loop's output, stop reason, KV and pending token; it leaves the context only if held tokens and budget exceed it |
| Generate.MotyModel.Run | c/api/api.c:277-348 | a started call that fails or is aborted empties the conversation; one whose prefill was lost succeeds all the same, and one that succeeds is valid if and only if it was not |
| Generate.MotyModel.Generate | c/api/api.c:229-353 | a refused call changes nothing; one let through runs out of the context only if its size exceeds the largest int; success extends the conversation by prompt and answer unless the prefill was lost, which does not keep the call from succeeding, and leaves the last token pending if and only if the answer is whole, as it is without abort; at temperature 0 a whole answer equals plain decoding in output, stop reason, n_past and pending, lookahead or not |
| Generate.LetThroughFits | c/api/api.c:238-261 | a call let through by the 32-bit context check fits the context with its whole budget if and only if conversation, prompt and budget together do not exceed the largest int |
| Generate.LargestBudgetIsLetThrough | c/api/api.c:257-261 | the largest budget passes the check on any conversation and in any context, which it does not fit |
| Generate.OverflowRunsOut | c/api/api.c:257-332 | a call let through without fitting, and stopped by nothing, runs past the last position |
| Generate.LargestBudget | c/api/api.c:257-261 | a concrete such call |
| Generate.MotyModel.Refused | c/api/api.c:231-261 | a call let through feeds a non-empty prompt of known tokens with a budget that is not negative |
| Generate.Serve | c/api/api.c:208-353 | one generate or reset call that does not lose its prefill: the conversation afterwards, and whether its last token is pending, is what the reply says, and the reply is the checks' refusal, or success when nothing aborts or fails, with a whole answer at temperature 0 being the plain loop's |
| Generate.Session | c/api/api.c:206-353 | over any run of generate and reset calls, with the abort flag raised and cleared at will and refused, failed and aborted calls included, the KV holds the conversation that the replies add up to, and each reply answers its call in the conversation at that point; the run is cut short only before a call that would lose its prefill or by one whose size exceeds the largest int |
| SpecDecode.GreedyUntilIsGreedy | c/engines/glm.c:3976-3981 | the reference answer is the longest prefix of greedy decoding within the budget that has no stop token |
| SpecDecode.AcceptDrafts | c/engines/glm.c:4013-4022 | accepted drafts are exactly the greedy continuation; the loop ends on disagreement, stop token, budget or the last draft |
| SpecDecode.Clamp | c/engines/glm.c:4004-4006 | drafts never exceed the budget or reach past the last cache row |
| SpecDecode.Ahead | c/engines/glm.c:4008-4009 | one forward gives rows for the emitted token and every draft, and the model's token after each of them |
| SpecDecode.Round | c/engines/glm.c:4008-4029 | after a round the rows up to kv are those of the tokens kept, and the carried logits give the next greedy token |
| SpecDecode.Decode | c/engines/glm.c:3959-4036 | for drafts of any origin the output is the greedy sequence up to the budget or the first stop token (a prefix of it when interrupted); kv advances by what was emitted, less one exactly when drafts, interruptions and model make the budget end on the token at the top of a round |
| SpecDecode.RoundDecides | c/engines/glm.c:3976-4028 | whether the budget ends at the top of a round is decided by the round's own token or left to what follows the drafts it keeps |
| SpecDecode.PlainEndsAtTop | c/engines/glm.c:3976-3981 | without drafts it does after every full answer |
| SpecDecode.GreedyUntilSplits | c/engines/glm.c:4809-4817 | decoding n tokens and then m more is decoding n + m |
| SpecDecode.PrefixIsGreedyUntil | c/engines/glm.c:3945 | what an interrupted answer has sent is greedy decoding of that many tokens |
| SpecDecode.AnswerThenMore | c/engines/glm.c:4809-4823 | an answer, interrupted or not, and its continuation by MORE are one decode of their length and budget, unless the answer ended at the top of a round: then the continuation begins by sending the last token again, and without that copy the two are a decode shorter by one; an interrupted continuation is a prefix |
| SpecDecode.JoinedIsOne | c/engines/glm.c:4809-4817 | with nothing interrupted and the last token held, the two budgets are as good as one |
| Nucleus.Softmax | c/engines/glm.c:3886-3889 | the exponentials of the logits divided by their sum are a distribution |
| Nucleus.MaskedSum | c/engines/glm.c:3894-3896 | the mass of the top tokens is the sum of the buffer once all others are zeroed, for any ranking |
| Nucleus.FindCut | c/engines/glm.c:3893-3894 | the cut is the smallest number of top tokens whose mass reaches the nucleus |
| Nucleus.Truncate | c/engines/glm.c:3890-3898 | in place: what is kept is that set, each token in proportion, none kept less likely than one dropped, and the result is a distribution; outside (0, 1) nothing is cut |
| Nucleus.Build | c/engines/glm.c:3884-3899 | the target distribution is the softmax cut to its nucleus, and is one |
| Sampling.DistSample | c/engines/glm.c:3901-3907 | the loop returns the first unbanned token at which the running mass reaches the scaled draw, else the last one with mass, else 0 |
| Sampling.SampleMass | c/engines/glm.c:3901-3907 | the draws that return a token fill an interval whose length is its share of the scale; the last token with mass also takes what is left |
| Sampling.MassIsUnique | c/engines/glm.c:3877-3878 | a token's probability, as the length of its interval of draws, is well defined |
| Sampling.AcceptMass | c/engines/glm.c:4016-4017 | a draft is accepted with its own probability |
| Sampling.RejectionIsExact | c/engines/glm.c:3977-4018 | over the reals, accept-or-redraw gives every token its own probability if and only if the floor under the scale does not distort the redraw |
| Sampling.SpacedIsCovered | c/engines/glm.c:3880-3902 | it never does for probabilities spaced as the floats of the buffer are below 1: a draft that can be rejected leaves at least 2^-24 |
| Sampling.NoBanIsExact | c/engines/glm.c:3908-3914 | without a ban the draw has the distribution itself |
| Sampling.ChainIsExact | c/engines/glm.c:3976-4022 | by induction over rounds and drafts, steps that are exact along the emitted history give every emitted prefix the model's product law, whatever is guessed |
| Sampling.SpeculationIsInvisible | c/engines/glm.c:3871-3875 | with dist_sample and any deterministic guesser the emitted prefix has the autoregressive law, from the top of a round and from within a verification, where along that prefix the floor under the scale distorts no redraw |
| Sampling.SpeculationOnFloats | c/engines/glm.c:3871-3907 | which it never does when the distributions along that prefix are spaced as the floats of the buffer are |
| Pilot.AdmitKeeps | c/engines/glm.c:2966-2972 | promoting an expert that is not resident keeps the visible slots whole and distinct |
| Pilot.HideKeeps | c/engines/glm.c:3108-3118 | hiding a victim for a load keeps what is visible whole and distinct |
| Pilot.PublishKeeps | c/engines/glm.c:3122-3132 | so does publishing a good load, and abandoning a failed one |
| Pilot.StepKeepsInv | c/engines/glm.c:985-995 | every step of either thread keeps the handshake's invariant, promotion without a second look at residency included |
| Pilot.RunKeepsInv | c/engines/glm.c:985-995 | and so does every interleaving from the start |
| Pilot.PilotIsSafe | c/engines/glm.c:2467-2476 | in every interleaving: past its barrier a layer has no load in flight and none can start until the next forward, every expert that can be matched is whole, and no cache names an expert twice although an expert missed at resolve is promoted without looking again |
| Pilot.LoadsReleaseTheBarrier | c/engines/glm.c:3120-3132 | the load a barrier waits for releases it when it ends, read errors included |
| PipePool.CursorIsMonotone | c/engines/glm.c:1841-1874 | as coded, between any two states of any schedule from the start: the cursor only grows, its index stays in 0..64 and never carries into the generation, and no job is claimed twice |
| PipePool.InvIsSafe | c/engines/glm.c:1917-1924 | the invariant implies that a slot seen ready holds its expert and is not written by any worker |
| PipePool.WorkerKeepsInv | c/engines/glm.c:1849-1877 | every step of a worker, failed compare-and-swaps apart, keeps the invariant |
| PipePool.MainKeepsInv | c/engines/glm.c:1897-1924 | every step of dispatch and wait keeps it |
| PipePool.SwapKeepsInv | c/engines/glm.c:2966-2972 | exchanging the used slots with the cache keeps it, because no worker is left at work |
| PipePool.RunKeepsInv | c/engines/glm.c:1841-1924 | so does every schedule |
| PipePool.PoolIsSafe | c/engines/glm.c:1820-1832 | with the count stored together with the cursor every schedule is safe; as coded, every schedule of batches that never grow |
| PipePool.GoesWrong | c/engines/glm.c:1908-1913 | a schedule in which a straggler claims a job of the old generation under the new count and a slot is reported ready while a job still has to write it |
| PipePool.SafeAsCoded | c/engines/glm.c:1841-1924 | as coded, with at least one worker, all schedules are safe if and only if no batch has more jobs than the one before it |
| MoeCache.Union | c/engines/glm.c:2657-2663 | exactly the routed experts of the batch, each once |
| MoeCache.UnionIsOwn | c/engines/glm.c:2744-2930 | summing over any duplicate-free superset in any order gives a position its own weighted expert sum |
| MoeCache.Rows | c/engines/glm.c:2871-2875 | an expert's rows are the positions that route to it, each once, with the weight of its pick |
| MoeCache.AddExpert | c/engines/glm.c:2889-2908 | one expert's forward adds its weighted output at those positions and nothing elsewhere |
| MoeCache.Layer.Resolve | c/engines/glm.c:2744-2754 | every expert of a block is found once, pinned, cached or to be loaded; to be loaded exactly when it was not resident; only stamps change |
| MoeCache.Layer.Load | c/engines/glm.c:2817-2828 | miss q fills slot q of the working set and no other |
| MoeCache.Layer.Compute | c/engines/glm.c:2860-2908 | every block computes with the weights of the expert it names |
| MoeCache.OldestIsNotPromoted | c/engines/glm.c:2970 | the slot evicted is never one promoted in the same loop |
| MoeCache.ExchangeKeepsSlabs | c/engines/glm.c:2971 | exchanging two slots only permutes the slabs of cache and working set |
| MoeCache.Layer.Promote | c/engines/glm.c:2966-2972 | the last min(misses, ecap) loads are in the cache, newer than all else; what was evicted was no younger than what stayed; no expert twice, never more than ecap, slabs permuted |
| MoeCache.Layer.RunBlock | c/engines/glm.c:2741-2973 | a block of 64: resolved once each, added to every output, promoted, slabs permuted |
| MoeCache.Layer.Moe | c/engines/glm.c:2466-2973 | hits and loads together are the distinct routed experts, none loaded twice, and every position's output is its own weighted expert sum |
| MoeCache.Layer.constructor | c/engines/glm.c:1224 | an empty cache beside the pinned slots, none of its zeroed slots visible |
| MoeCache.Forwards | c/engines/glm.c:2645-2973 | over any run of batches from an empty cache every output of every batch is the position's own weighted sum |
| KvDisk.ReadBack | c/engines/glm.c:4520-4553 | the read loop returns the counted whole records, or nothing for a missing, foreign, empty or too long file |
| KvDisk.TakeFlat | c/engines/glm.c:4535-4543 | records read back as they were laid out, whatever follows them |
| KvDisk.LoadReturns | c/engines/glm.c:4529-4533 | a surviving image reopens as the recorded conversation if and only if that is empty or shorter than the loader's limit |
| KvDisk.KvFile.constructor | c/engines/glm.c:4520-4553 | opening a missing or fully accepted file starts from what it records |
| KvDisk.KvFile.Open | c/engines/glm.c:4462-4477 | creating the file word by word never shows a record that is not there |
| KvDisk.KvFile.WriteRecord | c/engines/glm.c:4503-4514 | a record going out word by word leaves the committed ones and their count alone |
| KvDisk.KvFile.Append | c/engines/glm.c:4489-4519 | after every write of an append the file reads as the old history, after the last one as the new |
| KvDisk.KvFile.Truncate | c/engines/glm.c:4478-4488 | one write shortens the recorded history |
| KvDisk.Session | c/engines/glm.c:4436-4442 | over any interleaving of turns, rewinds and resets, after a crash at any single write the loader returns one of the histories the server held, or nothing if that one is too long for it |
| MuxServer.Slot.CommonPrefix | c/engines/glm.c:4654 | the longest prefix of the prompt that the slot's history already has |
| MuxServer.Slot.Prefill | c/engines/glm.c:4654-4663 | the rows afterwards are the prompt's, reused or computed, and the next token is the prompt's |
| MuxServer.Slot.Send | c/engines/glm.c:4667-4673 | a known next token ends the request or is sent, and ends it exactly at the budget |
| MuxServer.Slot.Submit | c/engines/glm.c:4642-4674 | a busy or empty request changes nothing; an accepted one starts with its budget clipped to the context and its first token sent, or ends on it |
| MuxServer.Slot.Finish | c/engines/glm.c:4593-4606 | a finished slot is recorded on disk up to its length |
| MuxServer.Slot.Cut | c/engines/glm.c:4616-4627 | a cancelled or interrupted request stops where it stands |
| MuxServer.Slot.Feed | c/engines/glm.c:3673-3705 | a ragged row is computed at the slot's own position over the slot's own rows |
| MuxServer.DecodeBatch | c/engines/glm.c:4739-4754 | one batch advances every active request by exactly one token or ends it, and leaves idle slots alone |
| MuxServer.Drain | c/engines/glm.c:4703-4755 | batches alone bring every request to its end, a greedy one to the answer its prompt alone determines |
| MuxServer.React | c/engines/glm.c:4677-4759 | one event: every slot reacts as submission, cancellation, interrupt or batch has it and others leave it alone, and what a greedy request has been sent afterwards is a prefix of its answer, all of it if it ended by itself |
| MuxServer.Serve | c/engines/glm.c:4677-4759 | over any run of submissions, cancellations, interrupts and batches the trace of every slot's requests reacts so to every event in turn, and every slot's rows stay those of its own history |
| MuxServer.AnsweredAsFresh | c/engines/glm.c:4611-4755 | in any such run a greedy request that is accepted and later ends by itself has been sent exactly greedy decoding of its prompt within its budget and context, whatever is submitted, cancelled or interrupted meanwhile |
| MuxServer.AskGreedy | c/engines/glm.c:4611-4755 | submitting and then running batches only, whatever the slot held before and whatever requests the other slots have in flight, ends a greedy request with that same answer |
| MuxServer.LongPromptIsForgotten | c/engines/glm.c:4531-4533 | a prompt two tokens short of the context is accepted and recorded, and the loader then returns nothing |
| AllocTables.CountsUpdate | c/nn/alloc.c:65-66 | the two counters follow every change of a cell |
| AllocTables.SomeEmpty | c/nn/alloc.c:62 | half-full tables have an empty cell, so every probe ends |
| AllocTables.StoredFirst | c/nn/alloc.c:71-74 | tombstones never hide a key: probing comes to a stored key before an empty cell |
| AllocTables.Absent | c/nn/alloc.c:71-75 | an empty cell proves the key is not stored |
| AllocTables.PutKeeps | c/nn/alloc.c:63-66 | filling the first cell that is empty or dead keeps every key reachable |
| AllocTables.RemoveKeeps | c/nn/alloc.c:72 | a tombstone keeps every other key reachable |
| AllocTables.Table.Find | c/nn/alloc.c:68-76 | lookup and removal answer as a map does, for stored, missing and NULL keys, on tables without cells too |
| AllocTables.Table.Put | c/nn/alloc.c:61-67 | insertion of an absent key; a rehash without memory keeps the entries but zeroes the counts, consistent if and only if no cell was in use |
| AllocTables.Table.Grow | c/nn/alloc.c:53-60 | a rehash, same-size purge included, keeps the contents, makes room, and cannot grow again while it re-inserts |
| AllocTables.Table.Drain | c/nn/alloc.c:140-143 | every live block is visited exactly once |
| AllocTables.Table.Merge | c/nn/alloc.c:144-147 | the union of two disjoint trackers, the source left empty |
| AllocTables.Session | c/nn/alloc.c:113-139 | any sequence of insertions of absent keys, lookups and removals is answered as by a map |
| AllocTables.RegistryMiscounts | c/nn/alloc.c:53-58 | a registry filled with mappings at pages until a rehash gets no memory counts no cell as in use although some are |
| AllocTables.Registry.Handle | c/nn/alloc.c:68-92 | a registry call takes the lock, is answered as by a map and gives it back, except that a failed rehash jumps out with it; while it is lost every call but freeing NULL hangs and changes nothing |
| AllocTables.RunRegistry | c/nn/alloc.c:44-92 | over any run of calls by any threads: answers of a map up to the first failed rehash, and nothing but hanging after it |
| AllocTables.RegistryHangs | c/nn/alloc.c:77-86 | a full registry, a mapping whose rehash fails, and freeing a stored block hangs |
| AllocTables.NewRegistry | c/nn/alloc.c:49-55 | the registry starts at 256 cells and purges in place |
| AllocTables.NewTracker | c/nn/alloc.c:117-121 | a tracker starts at 1024 cells and doubles |
| Ownership.Process.Malloc | c/nn/alloc.c:149-155 | a new block is in the current tracker and in no other, and a big one of the model's is registered |
| Ownership.Process.Free | c/nn/alloc.c:163 | freeing keeps the books if and only if the block is live and no other tracker's |
| Ownership.Process.Resize | c/nn/alloc.c:102-111 | which reallocs give the block up, and which of those leave nothing in its place |
| Ownership.Process.Replace | c/nn/alloc.c:156-161 | what is in a block's place, or the block itself when nothing is, is in the tracker that had it |
| Ownership.Process.Realloc | c/nn/alloc.c:156-161 | reallocating keeps the books if and only if a block given up was the current tracker's or nobody's, and a tracked one was not stranded |
| Ownership.Process.FreeAll | c/nn/alloc.c:140-143 | emptying a tracker gives each of its blocks back once and leaves every other block as it was |
| Ownership.Process.Merge | c/nn/alloc.c:144-147 | ownership passes without a block being lost or owned twice |
| Ownership.Process.Open | c/api/api.c:132-161 | a failed open leaves no tracked block |
| Ownership.Process.Generate | c/api/api.c:276-345 | success hands the call's blocks to the model, failure gives them back, the model's own are untouched |
| Ownership.Process.Work | c/api/api.c:137-193 | an engine's turn makes exactly the heap calls the engine asks for, each in the heap the one before it left, under the tracker that is set |
| Ownership.Process.Close | c/api/api.c:164-171 | close leaves no tracked block |
| Ownership.Lifetime | c/api/api.c:132-171 | from open to close, with a disciplined engine of its own for every phase and any outcome of each, the heap goes through exactly what the engines ask for, every block in a tracker at any point of that is given back, and none twice |
| Ownership.StrandedIsReleasedTwice | c/nn/alloc.c:106-108 | a concrete realloc after which closing gives a block back twice |
| Ownership.ShortlistIsReleasedTwice | c/runtime/runtime.h:335-340 | a block of the model's tracker freed under none, as the engine's close does with a head shortlist, and then given back again |
| HeadSelect.KthIsUnique | c/nn/head.c:107 | the k-th largest is a single value |
| HeadSelect.Partition | c/nn/head.c:111-117 | both scans stay within their segment, the segment is permuted, larger scores end up before smaller ones |
| HeadSelect.KthLargest | c/nn/head.c:108-121 | in bounds and terminating; permutes the first n scores and returns the k-th largest of them |
| HeadSelect.ClearingSelects | c/nn/head.c:159-163 | selecting among the scores above any provisional bound gives the k-th largest of all, if at least k clear it |
| HeadSelect.Threshold | c/nn/head.c:151-163 | the sampled-threshold path returns the k-th largest of all V scores |
| HeadSelect.Mark | c/nn/head.c:164-167 | the candidate blocks are those with a score at or above the threshold, each once |
| HeadSelect.Apply | c/nn/head.c:134-173 | rows of the blocks chosen by the true k-th score have their exact logits, all others -1e30; every row that scores as high as the k-th is exact |
| HeadPopcount.FormulaIsDot | c/nn/head.c:53-57 | 2 sb - 8 pc - su + 4 D from the three planes is the sum of signs times codes less 4, for every length |
| HeadPopcount.DotIsBounded | c/nn/head.c:89-90 | a score is at most 3 D in size |
| HeadPopcount.BothInByte | c/nn/head.c:82 | popcounts of anded bytes count the positions set in both rows |
| HeadPopcount.BuildRow | c/nn/head.c:28-44 | a row's bits are the signs of its unpacked weights, pc their number, other rows untouched |
| HeadPopcount.BuildPlanes | c/nn/head.c:58-68 | the planes hold the bits of the clamped codes, su their sum |
| HeadPopcount.CountBlock | c/nn/head.c:75-86 | counts of four rows, or of the rows of a ragged tail |
| HeadPopcount.CountBoth | c/hw/hw_ops.h:65-71 | one popcount loop is the number of common positions |
| HeadPopcount.Scores | c/nn/head.c:71-93 | every row's score is its signed dot product, last block included |
| HeadPopcount.Score | c/nn/head.c:25-105 | from packed weights and rounded activations to the sum of sign times clamped activation, for every row |
| Int4Dot.DotScalar | c/hw/hw_scalar.h:14-22 | the portable loop is the sum of (nibble - 8) times activation, odd lengths included, within 32 bits |
| Int4Dot.PxPermute | c/hw/hw_avx512.h:90-102 | granules of 64 permuted as 0-15, 32-47, 16-31, 48-63, the rest copied |
| Int4Dot.PxSum | c/hw/hw_avx512.h:103-105 | the sum of the activations |
| Int4Dot.UnpackedIsPermuted | c/hw/hw_avx512.h:112-115 | the lanes of the two unpackings hold the nibbles in exactly that order |
| Int4Dot.Dpbusd | c/hw/hw_avx512.h:114-115 | each 32-bit lane gains four products and stays within its bound |
| Int4Dot.GranuleIsRawDot | c/hw/hw_avx512.h:111-135 | permuted codes against permuted activations give the granule's sum |
| Int4Dot.Fours | c/hw/hw_avx512.h:109-129 | four accumulator chains over 256 elements together hold the sum so far |
| Int4Dot.Offset | c/hw/hw_avx512.h:85-86 | the deferred offset: sum of (n - 8) x is sum of n x less 8 times sum of x |
| Int4Dot.Tail | c/hw/hw_avx512.h:137-146 | the scalar tail and its activations |
| Int4Dot.DotPermuted | c/hw/hw_avx512.h:106-148 | for every length and tail the fast form is the sum of (nibble - 8) times activation, no 32-bit step overflowing up to 1127288 elements |
| Int4Dot.SameAsPortable | c/hw/hw_avx512.h:90-148 | permuting, summing and the fast dot return what the portable loop returns |
| Int4Dot.UnpackedInOrder | c/hw/hw_avx512.h:160-167 | unpacking 16 bytes at a time keeps the codes in order |
| Int4Dot.TwoGroups | c/hw/hw_avx512.h:159-173 | lanes 0-7 and 8-15 give the integer values of the two groups |
| Int4Dot.GroupedPortable | c/hw/hw_quant.h:35-50 | the portable grouped form is the scaled sum of the group values |
| Int4Dot.GroupedSameAsPortable | c/hw/hw_avx512.h:155-176 | both grouped forms have the same group values and over the reals the same sum |
| TensorIndex.StoreKeeps | c/io/st.h:212-216 | storing the next tensor keeps all reachable, duplicates in order of arrival |
| TensorIndex.Shards.Build | c/io/st.h:208-217 | the built index holds every tensor, and every probe for a free cell ends |
| TensorIndex.Shards.FindExact | c/io/st.h:249-261 | through the index or without one: the lowest-numbered tensor of that name, or none exactly when there is none |
| TensorIndex.Shards.Find | c/io/st.h:266-272 | the name itself, else the text backbone's tensor, unless its name does not fit the buffer |
| TensorIndex.Lookup | c/io/st.h:220-239 | for every list of files the lookup agrees with a scan of all their tensors |
| TensorIndex.CanonicalResolves | c/io/st.h:273-278 | the canonical name of a backbone tensor leads back to it if and only if no tensor has that very name and the full one fits the buffer |
| Mla.FoldingIsRebuilding | c/engines/glm.c:2294-2297 | q (W l) is (q W) l, for all dimensions |
| Mla.ReconstructScores | c/nn/mla.h:73-91 | the scores against keys rebuilt from every latent |
| Mla.Absorb | c/engines/glm.c:2380-2381 | the query with kv_b folded in |
| Mla.AbsorbScores | c/nn/mla.h:99-111 | the same scores from the folded query |
| Mla.AccumulateValues | c/nn/mla.h:117-131 | the weighted sum of values rebuilt from every latent |
| Mla.ProjectOnce | c/engines/glm.c:2395-2399 | the same sum with the value projection applied once to the weighted latents |
| Mla.Attend | c/engines/glm.c:2374-2441 | a head's output is the same by both ways, for any softmax, any dimensions, any selected list or range of positions |

## Left out

- Floating-point rounding, SIMD tiers, threads inside kernels and performance. Floats are reals, quantized sums exact integers within stated widths.
- GPU backends, io_uring loading, and memory models weaker than sequential consistency.
- LanguageModel.Forward: the model behind it is uninterpreted, and a batched forward is taken to agree per position with single steps, which different kernels for different batch sizes need not do bit for bit.
- Generate.MotyModel.Generate: null arguments, placeholder embeddings, struct versions, a failed allocation of the prompt buffer and statistics other than the stop reason are not modelled; a call that leaves the context ends there (`Beyond`), what the source then overwrites being outside the model; draft tokens are not range-checked, as in the source, where one outside the vocabulary reads outside the embedding, so that the equality with plain decoding is worth what the caller's draft ids are; an answer cut short by the abort flag is only a prefix of the plain one.
- Generate.Session: a conversation with a lost call is followed no further; which call that is, the contract says.
- SpecDecode.Decode: where drafts come from (grammar, MTP head, n-grams), the pause of unsuccessful drafts, the 63-draft buffer and the expert repinning between rounds are not modelled; interruptions may cut the output short anywhere between rounds.
- Sampling.ChainIsExact: stop tokens and the budget are left out of the chain, and the model is any function from histories to distributions; the generator of draws is taken as uniform and independent.
- Sampling.SpeculationOnFloats: probabilities are reals spaced below 1 as floats are; that a buffer of floats sums to 1 only up to rounding is not modelled.
- SpecDecode.AnswerThenMore: the budgets fit the cache, to which the source clips them.
- Nucleus.Build: temperature and exponential are not modelled, only that the exponentials are not negative and the largest is positive; the sort is any ranking by them, ties in any order.
- Pilot.PilotIsSafe: pinned slots are an arbitrary answer to one check, layers are entered in ascending order within a forward, one pilot thread, fewer than 257 layers; the residency scan for hints takes the same lock and only reads.
- PipePool.SafeAsCoded: expert_load is a write that takes time, its contents torn in between; I/O errors end the process in the source and have no step here; eight-bit index and 56-bit generation are unbounded numbers whose range is proved (index) or taken (generation).
- MoeCache.Layer.Moe: routing, EXPERT_BUDGET, the shared expert, prefetch hints, LFRU statistics and GPU groups; loads are complete before a block computes, which for the asynchronous pool is what PipePool proves under its condition; clocks do not wrap.
- KvDisk.Session: I/O errors, failed allocations, files the loader rejects and are then appended to, and writes the operating system reorders across a power failure.
- MuxServer.Serve: the wire protocol, request ids, statistics, end of input and allocation failures; a prompt is at most two tokens short of the context, as the tokenizer call enforces; samples of non-greedy requests are arbitrary.
- MuxServer.Slot.Finish: records on disk are a count here; what a record holds is in KvDisk.
- AllocTables.Table.Put: a failed allocation is modelled for the registry only; a tracker that cannot grow has raised its capacity before its cells are gone (`c/nn/alloc.c:120-121`), so that emptying it afterwards reads through NULL.
- AllocTables.Registry.Handle: outside a library call a failed rehash ends the process instead of jumping; threads take the lock one at a time, and the order in which they do is the run's.
- AllocTables.NewTracker: addresses are below 2^64, the tombstone's own address is not a key, and capacities are powers of two, so the mask is a remainder; nothing is proved about how well the hashes spread.
- Ownership.Lifetime: engines keep the discipline, which the source's own does not with a head shortlist (see above); blocks are numbered and numbers are not reused, so a stale pointer to a reused address shows as a second release; a realloc to size 0, which libc may treat as a free, is not among the calls; the engines' own buffers outside trackers are the engine's concern.
- HeadSelect.Apply: scores are reals without NaN; the quantized product behind an exact logit is a function of the row.
- HeadPopcount.Score: the positive scale factor of a row, the rounding of activations to integers and the vector popcount of other backends.
- Int4Dot.DotPermuted: activations are in -127..127, as quantization produces them; -128 is not.
- TensorIndex.Lookup: parsing of the files, offsets, types and mapping; names are byte strings without NUL.
- Mla.Attend: rotation, normalisation, the output projection and the choice of positions; the 512-wide stack buffers bound the latent dimension in the source.
- The LoRA trainer, test-time adaptation, tokenizers, chat loops, configuration, logging, profiling, tiered storage and the second engine's speculative turn.
