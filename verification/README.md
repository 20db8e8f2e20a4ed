# Verified models of the KV cache, the benchmarks and the tracing tools

This project models the radix cache of the serving runtime and eight of the repository's benchmark and tracing tools in
Dafny, and proves what they promise about every input, every run or every reachable state.
`dafny verify dfyconfig.toml` checks all of it.

**Radix cache** (`python/sglang/srt/mem_cache/radix_cache.py`; `Radix*.dfy`). The tree that stores KV slots by token
prefix: longest-prefix match with node splitting, insertion, lock references, eviction of leaves, and the two calls that
cache a request while it runs and when it ends. Nodes live in a table and are named by number; a key is a list of letters,
one per page of tokens with the key's name space, and the sizes count pages. Matching is also stated on tokens.
`RequestCache` adds the allocator and the requests, and its invariant says who owns each slot.

**Multi-turn workload generator** (`benchmark/hicache/bench_multiturn.py`; `MultiTurn*.dfy`, `WorkloadGenerator.dfy`).
A sender thread, the requests in flight and a response handler share a ready queue, an answer queue, client records, a
stock of follow-up questions and an optional round barrier. A state is a value and every atomic action is an event:
the sender's parallelism test, its pop (any index under the random policy, the head under fifo), the end of a task with
any response or an exception, one turn of the handler. The theorems range over all event lists. The class
`WorkloadGenerator` carries the source's fields, and each of its methods is proved to be one event. The source stores
the history list itself in the payload, in both modes; a client never has two live requests, so no payload is changed
while it waits, and the model's copies behave like the shared list.

**Conversation queue** (`benchmark/hicache/bench_serving.py`; `Conversation*.dfy`, `ServingBenchmark.dfy`).
Conversations circulate through a bounded queue under a concurrency limit. An empty conversation makes the lookup of its
next prompt fail; the exact condition on the input under which a run meets that is proved. No loader in the repository
hands over such a list: `benchmark/hicache/data_processing.py` never appends an empty conversation at lines 85-86,
342, 415 and 427, and at 482-489 it does so only when there are no prompts at all. An empty first conversation fails
earlier, in the warm-up request, which is left out.

**Delayed queue** (`benchmark/hicache/bench_mix.py`; `DelayedQueue.dfy`). The insertion computes an index and then uses
another one, the last index its search looked at. The model follows the code: the queue is not kept sorted in general,
and the project proves exactly when it is.

**Trace converter** (`scripts/convert_otel_2_perfetto.py`; `Span*.dfy`, `TraceLayout.dfy`, `TracePipeline.dfy`).
Building a span forest from untrusted parent ids, the recursive passes over it, and the greedy line layout with its
bisect-based overlap check.

**Profiler trace analysis** (`benchmark/mixed_precision_profile/analyze_trace.py`; `BusySweep.dfy`, `RowSort.dfy`,
`Annotations.dfy`). Sorting the rows, busy time by a sorted sweep, the split over categories, window cutting, the
innermost enclosing range and the CPU-side P1 totals. Time is integer, so that a measure is a set cardinality. Lines 75-86 of `enclosing` compute a value
that lines 88-91 overwrite; the model has only the latter.

**Line retrieval** (`benchmark/line_retrieval/`; `Redirects.dfy`, `LineQueries.dfy`). Redirect chasing with ring
detection and in-place value updates, and the query filter of the evaluation script.

**OSWorld replay builder** (`benchmark/triaxialkv_osworld/build_replay.py`; `SmartResize.dfy`, `ReplayMessages.dfy`,
`RuntimeLog.dfy`, `TaskSteps.dfy`). Image resizing, message building, the log parser and the alignment of log and
trajectory. Where code and texts disagree the model follows the code: the error texts of `smart_resize` speak of sides
larger than the factor and of an aspect ratio below 100, but the code tests for 2 and for 200; the step numbers are
documented as 1-based, but the code also accepts 0 and negative ones and counts blocks from the back
(`MatchExact`).

**KV splits and slots** (`benchmark/mixed_precision_profile/bench_kv_decode_roofline.py`; `KvSlots.dfy`). Ceiling
division bounds and the slot layout of a mixed INT2/INT4 pool.

## Model

| member | source | states |
|---|---|---|
| RadixTree.OneCover | python/sglang/srt/mem_cache/radix_cache.py:667-691 | every stored prefix ends in exactly one node |
| RadixTree.OneSlot | python/sglang/srt/mem_cache/radix_cache.py:667-691 | a stored prefix has exactly one slot |
| RadixTree.ShorterStored | python/sglang/srt/mem_cache/radix_cache.py:667-691 | with a prefix all its shorter ones are stored, in nodes above it |
| RadixTree.WalkEnds | python/sglang/srt/mem_cache/radix_cache.py:674-691 | a walk that finds no child for the next letter has found the longest stored prefix |
| RadixTree.MismatchEnds | python/sglang/srt/mem_cache/radix_cache.py:677-682 | a piece that stops agreeing inside a node ends the longest stored prefix there |
| RadixTree.ChildHasSpace | python/sglang/srt/mem_cache/radix_cache.py:184-188 | a child found by its letter is of that letter's name space throughout, so comparing its piece never raises |
| RadixKeys.SharedPrefix | python/sglang/srt/mem_cache/radix_cache.py:214-222 | two keys share a stored prefix if and only if they have the same name space and the same tokens in its pages |
| RadixKeys.LettersUniform | python/sglang/srt/mem_cache/radix_cache.py:214-222 | the letters of every key are of one name space, which is what insertion wants of them |
| RadixKeys.SharedPagesAreFound | python/sglang/srt/mem_cache/radix_cache.py:667-691 | once pages of a key are stored, every key with the same name space and the same tokens in these pages finds them |
| RadixKeys.PageMatchIsKeyMatch | python/sglang/srt/mem_cache/radix_cache.py:201-211 | comparing tokens page by page counts the letters two keys share, a shared last part of a page as a whole one |
| RadixKeys.KeyMatchPaged | python/sglang/srt/mem_cache/radix_cache.py:201-211 | for keys of any length the loop returns that count in tokens, and fails if and only if the name spaces differ |
| RadixKeys.MatchTokens | python/sglang/srt/mem_cache/radix_cache.py:374-444 | for a key of any length: one slot per page of the longest prefix in whole pages whose tokens are stored under its name space |
| RadixUpdates.SplitKeepsShape | python/sglang/srt/mem_cache/radix_cache.py:693-713 | cutting a piece in two leaves a well formed tree |
| RadixUpdates.SplitKeepsContent | python/sglang/srt/mem_cache/radix_cache.py:693-713 | cutting a piece in two changes no slot of any prefix |
| RadixUpdates.AttachHolds | python/sglang/srt/mem_cache/radix_cache.py:763-769 | a new leaf adds exactly the prefixes that end in its piece, with their slots |
| RadixUpdates.DetachHolds | python/sglang/srt/mem_cache/radix_cache.py:795-803 | taking a leaf away removes exactly the prefixes that end in it |
| RadixLocks.ParentLocked | python/sglang/srt/mem_cache/radix_cache.py:611-645 | no node is locked more often than its parent, unless that is the root |
| RadixLocks.HeldIsLocked | python/sglang/srt/mem_cache/radix_cache.py:611-624 | a node some request holds is locked |
| RadixLocks.SplitKeepsLocks | python/sglang/srt/mem_cache/radix_cache.py:700 | after a cut each half is locked once per request that holds a node at or below it |
| RadixLocks.SizesAddUp | python/sglang/srt/mem_cache/radix_cache.py:820-830 | evictable and protected size together are the number of slots in the tree |
| RadixLocks.NoLeafNothingEvictable | python/sglang/srt/mem_cache/radix_cache.py:594-604 | when no leaf is evictable nothing is |
| Radix.KeyMatch | python/sglang/srt/mem_cache/radix_cache.py:191-198 | stops at the first letter that differs, or where either key ends |
| Radix.RadixCache.constructor | python/sglang/srt/mem_cache/radix_cache.py:356-367 | an empty cache satisfies the invariant |
| Radix.RadixCache.UpdateLeafStatus | python/sglang/srt/mem_cache/radix_cache.py:805-818 | the node is in the set of evictable leaves if and only if it is unlocked and childless |
| Radix.RadixCache.SplitNode | python/sglang/srt/mem_cache/radix_cache.py:693-713 | keeps the invariant, every node's path and every slot; the new node ends at the cut and has the rest as its only child |
| Radix.RadixCache.MatchPrefix | python/sglang/srt/mem_cache/radix_cache.py:667-691 | returns the slots of the longest stored prefix and the node it ends at, and changes no slot of any prefix |
| Radix.RadixCache.Insert | python/sglang/srt/mem_cache/radix_cache.py:723-775 | returns the length of the longest stored prefix; afterwards the old content is stored and behind that prefix the given slots, and nothing else |
| Radix.RadixCache.AddLeaf | python/sglang/srt/mem_cache/radix_cache.py:763-774 | adds the leaf and its size and keeps the invariant |
| Radix.RadixCache.IncLockRef | python/sglang/srt/mem_cache/radix_cache.py:611-624 | adds one holder: every node is locked once per holder at or below it, and the returned size moves between the counters |
| Radix.RadixCache.DecLockRef | python/sglang/srt/mem_cache/radix_cache.py:626-645 | takes one holder away, with the same invariant |
| Radix.RadixCache.DeleteLeaf | python/sglang/srt/mem_cache/radix_cache.py:795-803 | takes an evictable leaf away and keeps sizes, locks and leaves right |
| Radix.PickVictim | python/sglang/srt/mem_cache/radix_cache.py:589-596 | an evictable leaf of the lowest rank |
| Radix.RadixCache.EvictOne | python/sglang/srt/mem_cache/radix_cache.py:596-604 | after one round the heap is again the set of evictable leaves |
| Radix.RadixCache.Evict | python/sglang/srt/mem_cache/radix_cache.py:582-609 | each victim is the lowest leaf at its time and is needed; the wanted number of slots is freed or nothing evictable is left; no locked node is touched; in a tree without a repeated slot no slot is freed twice |
| Radix.LockedStays | python/sglang/srt/mem_cache/radix_cache.py:582-609 | a prefix that ends in a locked node keeps its slot |
| Radix.FreedIsOut | python/sglang/srt/mem_cache/radix_cache.py:598-600 | in a tree without a repeated slot a freed slot is stored no more |
| RadixRequests.ReliedOnStays | python/sglang/srt/mem_cache/radix_cache.py:582-609 | eviction takes no slot a running request relies on |
| RadixRequests.WholeKeyStored | python/sglang/srt/mem_cache/radix_cache.py:527-547 | a key that was just inserted is its own longest stored prefix |
| RadixRequests.FinishKeeps | python/sglang/srt/mem_cache/radix_cache.py:489-505 | freeing the duplicates and the unaligned tail leaves every slot in exactly one place: free, in the tree at one prefix, or at one position of one request |
| RadixRequests.DropKeeps | python/sglang/srt/mem_cache/radix_cache.py:499-505 | the same without insertion |
| RadixRequests.SettleKeeps | python/sglang/srt/mem_cache/radix_cache.py:527-573 | the same for a request that goes on with the tree's slots |
| RadixRequests.EvictKeeps | python/sglang/srt/mem_cache/radix_cache.py:594-604 | the same for eviction |
| RadixRequests.Limited | python/sglang/srt/managers/schedule_batch.py:971-976 | what is matched is a proper part of the tokens and ends before the first position whose logprobs are wanted |
| RadixRequests.RequestCache.Match | python/sglang/srt/managers/schedule_batch.py:978-1004 | finds the slots of the longest stored prefix in whole pages; no request and nothing stored changes |
| RadixRequests.RequestCache.Admit | python/sglang/srt/managers/schedule_policy.py:577-578 | while what was matched is still there, the request takes it over and holds its node; nothing stored changes |
| RadixRequests.RequestCache.Start | python/sglang/srt/managers/schedule_batch.py:971-1004 | both in one go: a request takes over the longest stored prefix within its limit, and at least one token is left to compute |
| RadixRequests.RequestCache.Extend | python/sglang/srt/mem_cache/common.py:201-226 | succeeds if and only if free and evictable slots together suffice, evicts only if the free ones do not, gives the request exactly the wanted number, and every slot is still in exactly one place |
| RadixRequests.RequestCache.ShareOut | python/sglang/srt/mem_cache/radix_cache.py:477-505 | stores the whole pages of the request and frees exactly its duplicates and its tail |
| RadixRequests.RequestCache.CacheFinished | python/sglang/srt/mem_cache/radix_cache.py:463-508 | that, and the request's lock is undone |
| RadixRequests.RequestCache.DropFinished | python/sglang/srt/mem_cache/radix_cache.py:499-508 | frees all slots of the request's own, changes nothing stored and undoes its lock |
| RadixRequests.RequestCache.InsertAndMatch | python/sglang/srt/mem_cache/radix_cache.py:527-547 | the match after the insertion is as long as the key, so the assertion cannot fail |
| RadixRequests.RequestCache.CacheUnfinished | python/sglang/srt/mem_cache/radix_cache.py:510-573 | frees exactly the duplicates, gives the request the tree's slots for its whole pages, keeps its tail, and moves its lock |
| RadixRequests.RequestCache.MoveLock | python/sglang/srt/mem_cache/radix_cache.py:560-573 | the old lock is undone and the new one set, and nothing stored changes |
| RadixRequests.RequestCache.Evict | python/sglang/srt/mem_cache/radix_cache.py:582-609 | the evicted slots are free again and every slot is in exactly one place |
| MultiTurn.ResolveRounds | benchmark/hicache/bench_multiturn.py:234-252 | a bound that is 0 takes the value of the other one, or of `num_rounds` when both are, and the range is refused exactly when it does not satisfy 1 <= min <= max |
| MultiTurnInvariants.CountAboveIsCardinality | benchmark/hicache/bench_multiturn.py:263-266 | the per-round count is the number of clients with more rounds than r |
| MultiTurnInvariants.ParticipantsAddUp | benchmark/hicache/bench_multiturn.py:263-267 | double counting: the per-round participants add up to the total number of requests |
| MultiTurnSafety.InitInv | benchmark/hicache/bench_multiturn.py:287-358 | the constructed state meets the invariant |
| MultiTurnSafety.NoFault | benchmark/hicache/bench_multiturn.py:449-522 | no lookup of a handler turn fails; in particular a follow-up question is always in stock |
| MultiTurnSafety.SuccessBarrier | benchmark/hicache/bench_multiturn.py:518-538 | counting a completion keeps the barrier invariant: the counter is the number of clients done with the round, and the round opens when that is all its members |
| MultiTurnSafety.StepInv | benchmark/hicache/bench_multiturn.py:388-538 | every action of every thread keeps the whole invariant, failed requests included |
| MultiTurnSafety.RunInv | benchmark/hicache/bench_multiturn.py:388-538 | the invariant holds in every state of every run |
| MultiTurnTheorems.BarrierSafety | benchmark/hicache/bench_multiturn.py:435-538 | in every run a request that is ready, in flight or answered belongs to a round whose previous round has been completed by each of its members |
| MultiTurnTheorems.RunIsSafe | benchmark/hicache/bench_multiturn.py:388-516 | in every run: no handler fault, sent minus completed equals requests in flight plus unhandled answers and is within the parallelism limit, at most one live request per client, every queued prompt is its client's whole history |
| MultiTurnTheorems.FullBarMeansDone | benchmark/hicache/bench_multiturn.py:414-415 | the progress bar never exceeds its total, and when it is full nothing is left to send, release or wait for, so the sender's exit loses no request |
| MultiTurnTheorems.SomethingMoves | benchmark/hicache/bench_multiturn.py:513-538 | without failures the barrier never parks every remaining request |
| MultiTurnTheorems.Progress | benchmark/hicache/bench_multiturn.py:402-538 | in a failure-free run some productive action is possible until all clients are finished |
| MultiTurnTheorems.RunFuel | benchmark/hicache/bench_multiturn.py:402-538 | in a failure-free run each productive action burns one unit of a measure that starts at three per request |
| MultiTurnTheorems.FuelSuffices | benchmark/hicache/bench_multiturn.py:402-538 | that measure is never negative |
| MultiTurnTheorems.FailureFreeRunCompletes | benchmark/hicache/bench_multiturn.py:458-538 | at most three moves per request; all clients are finished if and only if exactly `total_requests` responses have been handled, and then all queues are empty |
| MultiTurnTheorems.FailureStallsTheBarrier | benchmark/hicache/bench_multiturn.py:444-447 | a client whose request failed never gets further, and the barrier never opens another round |
| MultiTurnTheorems.HistoryFrozen | benchmark/hicache/bench_multiturn.py:449-456 | a client's record changes only when a success of that client is handled |
| MultiTurnTheorems.PromptExtends | benchmark/hicache/bench_multiturn.py:448-516 | the next prompt of a client is its previous prompt, then its output, then the follow-up question, and it is queued with that question's output length |
| MultiTurnChats.ChatAlternates | benchmark/hicache/bench_multiturn.py:449-502 | in OpenAI mode a history alternates user and assistant if and only if no empty answer was followed by a question; then every prompt has two messages per past round and one new question |
| MultiTurnChats.EmptyAnswerBreaksTheChat | benchmark/hicache/bench_multiturn.py:449-453 | a concrete run in which an answer without text leaves two user messages in a row |
| Workload.ReadyQueue.constructor | benchmark/hicache/bench_multiturn.py:188-191 | the queue starts with the given requests |
| Workload.ReadyQueue.Append | benchmark/hicache/bench_multiturn.py:193-195 | the request goes to the end |
| Workload.ReadyQueue.Pop | benchmark/hicache/bench_multiturn.py:197-205 | removes one request, the first one under fifo and any one under random, and reports an empty queue |
| Workload.WorkloadGenerator.constructor | benchmark/hicache/bench_multiturn.py:269-386 | builds an initial state: round counts, per-round counts, first prompts and stock |
| Workload.WorkloadGenerator.TestParallelism | benchmark/hicache/bench_multiturn.py:405 | is the sender's test event |
| Workload.WorkloadGenerator.PopAndSend | benchmark/hicache/bench_multiturn.py:406-409 | is a pop event or an empty pop, and keeps the invariant |
| Workload.WorkloadGenerator.FinishTask | benchmark/hicache/bench_multiturn.py:388-400 | is a reply event for one task, and keeps the invariant |
| Workload.WorkloadGenerator.HandleResponse | benchmark/hicache/bench_multiturn.py:441-538 | is one handler event, and keeps the invariant |
| Workload.WorkloadGenerator.RecordAnswer | benchmark/hicache/bench_multiturn.py:448-516 | extends the history, takes the client one round further and queues or parks its next request |
| Workload.WorkloadGenerator.CountBarrier | benchmark/hicache/bench_multiturn.py:520-538 | counts one completion and releases the parked requests in order when the round is full |
| ConversationQueue.FlattenKeepsTotal | benchmark/hicache/bench_serving.py:412-418 | flattening for a shared prefix keeps the number of prompts and makes conversations of one prompt each |
| ConversationQueue.FlattenAt | benchmark/hicache/bench_serving.py:416-418 | prompt i of conversation c becomes the conversation at its place behind all prompts of earlier conversations |
| ConversationTheorems.RunInv | benchmark/hicache/bench_serving.py:97-188 | in every run each conversation is in one place at most, queued plus taken ones stay within the queue bound so that putting one back never blocks, and messages are the prompts in order with answers between |
| ConversationTheorems.RunEmpty | benchmark/hicache/bench_serving.py:97-99 | empty conversations far enough back are never taken, so no lookup fails |
| ConversationTheorems.CrashIff | benchmark/hicache/bench_serving.py:97-99 | a run that has made all its takes has met a failing lookup if and only if some empty conversation's position is below the number of prompts |
| ConversationTheorems.EmptyConversationCrashes | benchmark/hicache/bench_serving.py:97-99 | a concrete run over three conversations, the second empty, that meets the failing lookup |
| ConversationTheorems.NoStarvation | benchmark/hicache/bench_serving.py:261-275 | in a failure-free run, while takes are left, a conversation is queued or a taken one will be put back |
| ConversationTheorems.StuckIffComplete | benchmark/hicache/bench_serving.py:261-275 | a failure-free run can do nothing more if and only if all takes are made and all tasks have ended |
| ConversationTheorems.RunIsShort | benchmark/hicache/bench_serving.py:261-275 | every run, failures and timeouts included, is over after one take, start and end per prompt and one timeout |
| ConversationTheorems.EveryPromptSentOnce | benchmark/hicache/bench_serving.py:458-491 | at the end of a failure-free run every prompt of every conversation was sent exactly once, in order, each followed by an answer |
| ConversationTheorems.RequestIsHistoryAndPrompt | benchmark/hicache/bench_serving.py:97-113 | a request in flight carries all earlier prompts with their answers, alternating, and then the next prompt |
| Serving.ServingBenchmark.constructor | benchmark/hicache/bench_serving.py:412-465 | queues every conversation once, with the bound their number and the limit the number of prompts |
| Serving.ServingBenchmark.TakeRequest | benchmark/hicache/bench_serving.py:266-275 | takes the head of the queue, or gives up when the queue stays empty |
| Serving.ServingBenchmark.BeginTask | benchmark/hicache/bench_serving.py:97-113 | appends the next prompt as a user message, or fails when there is none |
| Serving.ServingBenchmark.EndTask | benchmark/hicache/bench_serving.py:171-188 | records the answer and puts the conversation back if prompts are left, without waiting for room |
| Serving.ServingBenchmark.DropTask | benchmark/hicache/bench_serving.py:189-191 | a failed task drops its conversation |
| DelayedQueue.UserGenerator.Push | benchmark/hicache/bench_mix.py:259-267 | inserts at the last index the search looked at |
| DelayedQueue.UserGenerator.Pop | benchmark/hicache/bench_mix.py:269-276 | takes the head if its start time has passed |
| DelayedQueue.EnqueueAddsOne | benchmark/hicache/bench_mix.py:259-267 | an insertion adds its user once and loses nobody |
| DelayedQueue.EnqueueOrderedIff | benchmark/hicache/bench_mix.py:262-267 | an insertion into a sorted queue leaves it sorted if and only if the queue was empty or the user is not later than the last one |
| DelayedQueue.SortedRunIff | benchmark/hicache/bench_mix.py:259-276 | a run keeps its queue sorted if and only if every insertion meets that condition |
| DelayedQueue.LastStays | benchmark/hicache/bench_mix.py:262-276 | while the queue is not empty, its last user never changes |
| DelayedQueue.FirstInLeavesLast | benchmark/hicache/bench_mix.py:262-276 | the user that entered an empty queue is the one whose removal empties it again |
| DelayedQueue.SortedServesTheDue | benchmark/hicache/bench_mix.py:270-276 | in a sorted queue a pop succeeds if and only if some user is due |
| DelayedQueue.DueUserWaits | benchmark/hicache/bench_mix.py:262-276 | a concrete run in which a due user waits behind one that is not |
| SpanBisect.BisectStart | scripts/convert_otel_2_perfetto.py:59 | on an ordered line the bisection finds the first interval that does not start before |
| SpanBisect.BisectPair | scripts/convert_otel_2_perfetto.py:73 | on an ordered line the bisection by pair finds the first one that is not smaller |
| SpanBisect.Check | scripts/convert_otel_2_perfetto.py:58-70 | on an ordered line the bisected check is the check by counting |
| SpanBisect.Insort | scripts/convert_otel_2_perfetto.py:72-73 | inserts at that place and keeps the order |
| SpanBisect.OrderedAfterAnyRun | scripts/convert_otel_2_perfetto.py:264-304 | after any placements, spans without positive length included, every line is in pair order, so the bisections are sound |
| SpanBisect.AnyRunAgreesIff | scripts/convert_otel_2_perfetto.py:264-304 | on every line of every run the overlap check agrees with a scan if and only if nothing is hidden |
| SpanLayout.CheckIsScan | scripts/convert_otel_2_perfetto.py:58-70 | on a sorted disjoint line, looking at two neighbours agrees with scanning all intervals |
| SpanLayout.InsertKeepsGood | scripts/convert_otel_2_perfetto.py:58-73 | inserting a span that passes the check keeps the line sorted and disjoint |
| SpanLayout.FirstFit | scripts/convert_otel_2_perfetto.py:110-113 | the first line on which the check passes, or the number of lines |
| SpanLayout.PlaceKeepsSlots | scripts/convert_otel_2_perfetto.py:103-120 | a placement keeps lines numbered 1..n with one slot record each |
| SpanLayout.PlaceKeepsGood | scripts/convert_otel_2_perfetto.py:95-120 | placing a positive-length span keeps all lines sorted and disjoint |
| SpanLayoutTheorems.SlotsOfAnyRun | scripts/convert_otel_2_perfetto.py:264-304 | after any placements the line ids per process are exactly 1..n with one slot record each |
| SpanLayoutTheorems.LinesOfAnyRun | scripts/convert_otel_2_perfetto.py:264-304 | after any placements of positive-length spans every line is sorted and disjoint, and the check on it agrees with a scan |
| SpanLayoutTheorems.LinesAreDepth | scripts/convert_otel_2_perfetto.py:290-304 | for start-sorted positive-length spans and a fresh process the number of lines is exactly the maximum number of simultaneously active spans |
| SpanLayoutTheorems.NoAssignmentIsShorter | scripts/convert_otel_2_perfetto.py:290-304 | no assignment that keeps overlapping spans apart uses fewer lines |
| SpanLayoutDegenerate.AgreesExact | scripts/convert_otel_2_perfetto.py:58-73 | with any number of spans without positive length, the check agrees with a scan on every query if and only if every entry starts inside an interval and no interval reaches over an entry into the gap behind it |
| SpanLayoutDegenerate.DegenerateExact | scripts/convert_otel_2_perfetto.py:58-73 | the first such span on a line leaves the check right if and only if it sits on the first or last nanosecond of an interval |
| SpanLayoutDegenerate.HidesTheRest | scripts/convert_otel_2_perfetto.py:58-73 | inside a longer interval such a span makes the check miss an overlap |
| SpanLayoutDegenerate.ZeroLengthCollision | scripts/convert_otel_2_perfetto.py:95-102 | concrete spans that end up overlapping on one line through the zero-length shortcut |
| LayoutPass.RunConcat | scripts/convert_otel_2_perfetto.py:273-288 | placements made request by request are placements made in one go |
| LayoutPass.TraceLayout.FindLine | scripts/convert_otel_2_perfetto.py:95-120 | the remembered line if it fits or the span is empty, else the first that fits, else a new one with its slot record |
| LayoutPass.TraceLayout.PlaceSpan | scripts/convert_otel_2_perfetto.py:277-287 | finds the line and inserts the span there |
| LayoutPass.TraceLayout.LayoutRequest | scripts/convert_otel_2_perfetto.py:274-288 | the spans of one request, starting with no remembered line |
| LayoutPass.TraceLayout.LayoutRequests | scripts/convert_otel_2_perfetto.py:273-288 | all requests, in order |
| LayoutPass.TraceLayout.LayoutGateway | scripts/convert_otel_2_perfetto.py:290-304 | the gateway spans; with a fresh process the line count is the depth of the spans |
| TracePipeline.LongSpansStayApart | scripts/convert_otel_2_perfetto.py:208-304 | spans of more than 1000 ns before the trim are laid out without overlap |
| SpanForest.ChildrenAreThose | scripts/convert_otel_2_perfetto.py:179-185 | a child list holds exactly the spans whose parent lookup ends at it, in order, without repetition |
| SpanForest.PathsAreUnique | scripts/convert_otel_2_perfetto.py:172-195 | for any parent ids, self-parents, cycles and duplicate ids included, a span has at most one path from the request roots |
| SpanForest.PathsAreShort | scripts/convert_otel_2_perfetto.py:172-195 | no path repeats a span, so the recursive passes terminate |
| SpanForest.VisitsOnce | scripts/convert_otel_2_perfetto.py:225-226 | a recursive pass visits each span of the subtree exactly once and no other |
| SpanTops.WalkListsTops | scripts/convert_otel_2_perfetto.py:229-248 | walking requests, threads and their children lists exactly the spans directly below a thread span, each once |
| SpanTops.ReorderedTops | scripts/convert_otel_2_perfetto.py:265-272 | sorting keeps that |
| SpanTops.AllVisitedOnce | scripts/convert_otel_2_perfetto.py:229-248 | the passes over all of them visit each span two or more levels below a request exactly once and no other |
| SpanPasses.IndexIds | scripts/convert_otel_2_perfetto.py:173 | the id map leads to the last span with an id |
| SpanPasses.ResolveLinks | scripts/convert_otel_2_perfetto.py:187-193 | keeps exactly the links whose id belongs to a span, in order, and leads each to the last such span |
| SpanPasses.BuildSpanTree | scripts/convert_otel_2_perfetto.py:172-195 | fills the child lists, the list of request spans and the links that lead to a span |
| SpanPasses.SpanTable.Convert | scripts/convert_otel_2_perfetto.py:198-226 | trims the end of a span by 1000 ns once per visit of the subtree |
| SpanPasses.SpanTable.ConvertAll | scripts/convert_otel_2_perfetto.py:229-248 | every span two or more levels below a request loses exactly 1000 ns, all others keep their end, and the list of top-level spans is complete and without repetition |
| SpanPasses.SpanTable.SetTid | scripts/convert_otel_2_perfetto.py:257-261 | puts exactly the spans of the subtree on the line |
| SpanPasses.SpanTable.SetAllTids | scripts/convert_otel_2_perfetto.py:274-288 | in whatever order the layout takes that list, every deep span ends on the line of the top-level span on its path, and no other span is touched |
| SpanPasses.SpanTable.Gather | scripts/convert_otel_2_perfetto.py:391-402 | lists the spans of the subtree in visiting order |
| SpanPasses.SpanTable.GatherAll | scripts/convert_otel_2_perfetto.py:405-413 | in any order of that list, gathers every deep span exactly once and nothing else |
| BusySweep.Attribute | benchmark/mixed_precision_profile/analyze_trace.py:99-124 | the weights of an event sum to 1 and go to its innermost range, else its kernel name, else the shares of a shared kernel, else the rest of the model |
| BusySweep.ChargesAddUp | benchmark/mixed_precision_profile/analyze_trace.py:145-149 | the category times add up to the event time |
| BusySweep.Sweep | benchmark/mixed_precision_profile/analyze_trace.py:143-160 | busy time is the measure of the union of the clipped events, idle time lies between 0 and the window length, every category gets its share of each event |
| RowSort.SortRows | benchmark/mixed_precision_profile/analyze_trace.py:124-125 | sorting the rows fails if and only if two of them share start and end and have different weights, or share all but the kind of step and only one kind is known; else it returns the same rows in order |
| RowSort.RowsThatClash | benchmark/mixed_precision_profile/analyze_trace.py:122-125 | two pairs of rows that make the sort fail |
| RowSort.SortedIsInOrder | benchmark/mixed_precision_profile/analyze_trace.py:125-137 | what the sort returns is in the order the bisections need |
| BusySweep.SliceIsWindow | benchmark/mixed_precision_profile/analyze_trace.py:136-137 | the two bisections cut out exactly the events that start in the window |
| BusySweep.MeasureWindow | benchmark/mixed_precision_profile/analyze_trace.py:135-161 | a window is dropped if and only if a step of another kind launched an event in it; else its measures are those of the events starting in it, and the category times add up |
| BusySweep.WindowsDisjoint | benchmark/mixed_precision_profile/analyze_trace.py:129-130 | the windows come in time order and do not overlap |
| Annotations.UnboundedIsInnermost | benchmark/mixed_precision_profile/analyze_trace.py:87-91 | for nested or disjoint ranges the chosen range lies within every range around the instant, equal starts included |
| Annotations.EnclosingExact | benchmark/mixed_precision_profile/analyze_trace.py:71-91 | for nested or disjoint ranges the answer is an innermost one if and only if one is among the last 400 started |
| Annotations.LimitMissesTheRange | benchmark/mixed_precision_profile/analyze_trace.py:71-91 | behind 400 or more finished short ranges the range around the instant is not found |
| Annotations.EnclosingIsInnermost | benchmark/mixed_precision_profile/analyze_trace.py:71-91 | when all containing ranges are in the slice, the answer is the innermost one |
| Annotations.WaitIsOverlap | benchmark/mixed_precision_profile/analyze_trace.py:180 | the wait of a range is the number of its instants inside synchronisation calls |
| Annotations.KeptAddUp | benchmark/mixed_precision_profile/analyze_trace.py:177-183 | the ranges the nesting filter keeps are disjoint, so their lengths add up to what they cover |
| Annotations.P1TotalExact | benchmark/mixed_precision_profile/analyze_trace.py:170-188 | the kept lengths add up to the measure of the union of all P1 ranges if and only if no outermost range of positive length occurs twice |
| Annotations.TwinsLoseTheirTime | benchmark/mixed_precision_profile/analyze_trace.py:177-183 | two equal ranges of four instants add up to nothing |
| Annotations.P1Times | benchmark/mixed_precision_profile/analyze_trace.py:173-188 | work plus wait equal that measure under the same condition |
| Redirects.RepeatMeansRing | benchmark/line_retrieval/gen_data.py:66-75 | coming back to a visited line means never reaching a plain one |
| Redirects.Chase | benchmark/line_retrieval/gen_data.py:63-75 | chasing ends; it reports a ring if and only if no plain line is ever reached, else the exact chain and its end |
| Redirects.ResolveAll | benchmark/line_retrieval/gen_data.py:56-77 | the reported set is exactly the ring lines, and every other line ends with its exact chain and the terminal line's original value despite in-place updates |
| Redirects.LinksAreSimple | benchmark/line_retrieval/gen_data.py:66-77 | a link list repeats no line |
| LineQueries.HopGroup | benchmark/line_retrieval/gen_data.py:79-84 | a group holds exactly the lines with that number of hops that are no rings |
| LineQueries.Filter | benchmark/line_retrieval/bench_sglang.py:41-46 | the accepted queries are exactly those whose links and position fit the body |
| LineQueries.FollowWalk | benchmark/line_retrieval/bench_sglang.py:44-53 | a reader of the truncated body gets to the end of a chain if and only if the chain stays inside |
| LineQueries.AcceptedIff | benchmark/line_retrieval/bench_sglang.py:41-53 | a query is accepted if and only if the source index is not negative, the query is not the last line of the body and the body alone leads to its label |
| LineQueries.PartsAreBody | benchmark/line_retrieval/bench_sglang.py:55-63 | the four parts concatenate to the body |
| LineQueries.BuildArgument | benchmark/line_retrieval/bench_sglang.py:38-65 | the picked query resolves to its label inside the body that the parts form, and it fails if and only if no query is accepted |
| LineQueries.BuildArguments | benchmark/line_retrieval/bench_sglang.py:36-68 | argument k is for the source index and fraction the nested loops give it, one for each pair; it fails if and only if some source index accepts no query, as a negative one does |
| SmartResize.Round | benchmark/triaxialkv_osworld/build_replay.py:155-156 | rounding moves by at most one half, and from the middle to the even number |
| SmartResize.CapBounds | benchmark/triaxialkv_osworld/build_replay.py:173-175 | after the long-side cap both sides are at least 2 and neither is over 205 times the other |
| SmartResize.ResizeBounds | benchmark/triaxialkv_osworld/build_replay.py:167-187 | an image is accepted if and only if both sides are at least 2 and the ratio is at most 200, and then gets positive sides that are multiples of 32 with an area between the pixel bounds, in every branch |
| SmartResize.KeepsShape | benchmark/triaxialkv_osworld/build_replay.py:177-187 | both sides are within one block of the same multiple of the capped sides |
| SmartResize.TokensOfGoodSize | benchmark/triaxialkv_osworld/build_replay.py:203-207 | a resized image has one token per 32 x 32 block plus two, between 6 and 12802 |
| SmartResize.TokensBounded | benchmark/triaxialkv_osworld/build_replay.py:190-207 | an accepted image costs at most 12802 tokens |
| ReplayMessages.BuildMessages | benchmark/triaxialkv_osworld/build_replay.py:353-380 | builds the message list; the lookup of an earlier step fails if and only if the window is negative |
| ReplayMessages.EveryStepOnce | benchmark/triaxialkv_osworld/build_replay.py:358-380 | every earlier step appears once, as a numbered text line or as a screenshot and response pair, at its exact position |
| ReplayMessages.Alternation | benchmark/triaxialkv_osworld/build_replay.py:364-380 | after the system message roles alternate, user first and last |
| ReplayMessages.ImagesAndInstruction | benchmark/triaxialkv_osworld/build_replay.py:365-380 | there are min(history_n, j) + 1 images and one instruction |
| ReplayMessages.ExtendsIff | benchmark/triaxialkv_osworld/build_replay.py:427-436 | a request strictly extends the one before if and only if the window still holds every earlier step |
| ReplayMessages.RequestTokens | benchmark/triaxialkv_osworld/build_replay.py:447-454 | a request costs at most (history_n + 1) * 12802 image tokens |
| RuntimeLog.ReadBlock | benchmark/triaxialkv_osworld/build_replay.py:265-281 | reads one block up to the first end pair, or to the end of the log |
| RuntimeLog.ParseLines | benchmark/triaxialkv_osworld/build_replay.py:257-282 | the parser's outer loop refines the recursive parser |
| RuntimeLog.ParseRuntimeLog | benchmark/triaxialkv_osworld/build_replay.py:249-282 | splits the text at line breaks and parses it with the log's markers |
| RuntimeLog.LinesRoundTrip | benchmark/triaxialkv_osworld/build_replay.py:249-282 | parsing a rendered log with noise lines gives its blocks back if and only if no response contains an end pair |
| RuntimeLog.LogRoundTrip | benchmark/triaxialkv_osworld/build_replay.py:249-282 | the same on the text itself with the log's own markers |
| RuntimeLog.BrokenBlock | benchmark/triaxialkv_osworld/build_replay.py:268-280 | a response with an end pair in it is read back differently |
| RuntimeLog.SplitJoin | benchmark/triaxialkv_osworld/build_replay.py:257 | splitting undoes joining lines that contain no break |
| TaskSteps.GroupRecords | benchmark/triaxialkv_osworld/build_replay.py:291-300 | one group per step number in order of first appearance, holding all records of that step in order |
| TaskSteps.Align | benchmark/triaxialkv_osworld/build_replay.py:310-326 | keeps exactly the longest prefix of groups whose actions equal their block's code, and says how it stopped |
| TaskSteps.MatchExact | benchmark/triaxialkv_osworld/build_replay.py:310-317 | a step number is accepted from 1 - n to n for n blocks and compared with block step - 1 counted round the list, which is that block from the front exactly from step 1 on |
| KvSlots.CeilDivIff | benchmark/mixed_precision_profile/bench_kv_decode_roofline.py:31-32 | the ceiling is at most k if and only if k pieces suffice |
| KvSlots.ChunksSuffice | benchmark/mixed_precision_profile/bench_kv_decode_roofline.py:31-43 | chunks sized for k splits never need more than k |
| KvSlots.SplitsInRange | benchmark/mixed_precision_profile/bench_kv_decode_roofline.py:25-44 | every split count lies between 1 and the maximum |
| KvSlots.SplitsMonotone | benchmark/mixed_precision_profile/bench_kv_decode_roofline.py:25-44 | a longer sequence never gets fewer splits |
| KvSlots.SplitsAreSmallerChunk | benchmark/mixed_precision_profile/bench_kv_decode_roofline.py:43-44 | the split count is the ceiling by the smaller chunk |
| KvSlots.Int2Length | benchmark/mixed_precision_profile/bench_kv_decode_roofline.py:152 | the INT2 part is a whole number of pages within the sequence |
| KvSlots.BuildSlots | benchmark/mixed_precision_profile/bench_kv_decode_roofline.py:165-171 | the loop builds the rows of all sequences |
| KvSlots.SlotAt | benchmark/mixed_precision_profile/bench_kv_decode_roofline.py:165-171 | token j of sequence b stands at its row position |
| KvSlots.SlotsInRange | benchmark/mixed_precision_profile/bench_kv_decode_roofline.py:152-171 | INT2 slots lie behind the first page and below the offset, INT4 slots above it and within the pool |
| KvSlots.SlotsDistinct | benchmark/mixed_precision_profile/bench_kv_decode_roofline.py:165-171 | no slot is used twice |
| KvSlots.SlotsBuiltDistinct | benchmark/mixed_precision_profile/bench_kv_decode_roofline.py:165-171 | equal entries of the index tensor stand at equal positions |
| KvSlots.PagesNotShared | benchmark/mixed_precision_profile/bench_kv_decode_roofline.py:152-171 | an INT2 page belongs to one sequence and exists in the pool |

## Left out

- Of the radix cache: the disabled mode, bigram keys, KV events and hashes, host copies, metrics, and the clocks, hit counts and priorities that make up an eviction rank; a rank is any function of the node.
- Radix.RadixCache.Evict: sizes count pages, a shorter last page as one, because a page is one letter with one slot.
- RadixRequests.RequestCache.Admit: needs that nothing matched has been evicted since, because the scheduler matches and locks a request in one turn; the rest of the scheduler is not part of this model.
- RadixRequests.RequestCache.Extend: allocates single slots, because the paged and the mixed-width allocators are not part of this model.
- The other caches of the runtime (hierarchical, sliding-window and hybrid ones) and its scheduler.
- HTTP calls, timeouts, sleeps and the barrier's heartbeat: a task ends with an arbitrary response or an exception at an arbitrary time.
- The ready queue's error for a policy other than random and fifo.
- The termination tests of the two multi-turn threads against the progress bar are not events; `MultiTurnTheorems.FullBarMeansDone` says what they can rely on.
- The partial effects of a handler turn that raises: such a turn is proved unreachable, and the model marks it as a crash without them.
- Performance metrics, latencies, percentiles and reports of all benchmarks.
- The sampler, the tokenizer and decoding: samples are parameters, and the sampler is taken to return as many prompts as it is asked for.
- The warm-up request of the serving benchmark and its queue of unlimited size for an empty input.
- The rest of the mixed workload of bench_mix.py (drawing rounds, prompts and intervals, parallelism) and bench_long_context.py.
- Sharing of list and dictionary objects: span dictionaries, conversations and messages are values in tables indexed by position.
- Sorting in the layout pass: spans and requests arrive in the order the library sort gives them; a request without spans, on which the source fails at line 271, is not modelled.
- Gateway spans in the recursive passes: line 225 reads a child list that only the engine spans have, so the gateway layout loop is modelled on its own.
- Perfetto events, link arrows, metadata texts and JSON output of the converter.
- RowSort.SortRows: sorts by insertion, because the library sort is not part of this model; any sort by comparisons compares rows that end up side by side.
- Kernel-name patterns of the trace analysis are taken as given by their verdict; times are integers and the per-name totals are not kept.
- Annotations.P1Times: does not keep the per-name breakdown or the launch time, because they only repeat the same subtraction.
- Random generation of lines and redirects, few-shot examples and prompt texts of the line retrieval data.
- SmartResize.ResizeBounds: over exact reals with the square roots given as parameters, because float rounding is not modelled.
- ReplayMessages.RequestTokens: uses one size for all images of a request, because the source prices every image with the current screenshot's size.
- RuntimeLog.LogRoundTrip: noise lines that start a block are excluded, because such a line is a block.
- `ast.literal_eval` and `low_level_instruction` are function parameters; reading archives, JSON and images, and `observation_file` are not modelled.
- KvSlots.SplitsInRange: the base-2 logarithm is a parameter, because only its maximum with 1 matters for the bounds.
- Attention kernels, pools of tensors and timing of the KV benchmark.
