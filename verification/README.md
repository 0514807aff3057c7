# A verified model of llama-herd

llama-herd serves language models to many streams at once and runs large documents and task graphs
through them. This project models its hardest parts in Dafny and proves what they are for:

- **The decode loop** (`Decoding`, `Backends`, `Slots`, `Tables`, `Engines`, `TaggedCells`). One loop owns a
  slot table and a model with two kinds of state: a positional cache that can be cut back, and a state
  carried forward in place that cannot. Each tick stages one batch (replays, next tokens, drafts, prefill),
  decodes it, verifies the drafts and takes back what the model did not choose, by position or by snapshot
  and replay. The specification is `Decoding.Plain`: one stream alone, one token at a time. The drafter, the
  order in which the slot table is walked, what the backend refuses and when callers leave are arbitrary
  choices; every run is held to the specification. `Utf8` is the text side of it, `Lookups` the drafter that
  ships with the engine, `Manifests` the arithmetic that is meant to guarantee the engine room.
- **Graphs** (`Digraphs`, `Ranks`, `Tarjan`, `Condensation`, `TaskGraphs`, `Schedules`). An iterative Tarjan with
  explicit frames, the condensation by levels, task tiers, cycle reports, the critical path, and the concurrent
  scheduler as a transition system.
- **Candidate narrowing** (`Sampling`). A histogram cutoff ahead of top-k, in exact arithmetic.
- **Documents** (`Planning`, `Splitting`, `Spans`, `Segments`, `Selections`). Planning and cutting a text into
  chunks, indexing it as regions of its bytes, choosing among them and laying them out.
- **Two parsers** (`Gguf`, `ToolXml`), each against the printed form it documents.

`Options`, `Sequences` and `Names` hold what several of these share. Code that changes fields, arrays or
variables in loops is modelled by classes, arrays and methods, each proved against a specification function or
predicate whose own properties are proved as lemmas.

Conditions under which the main theorem of the decode loop is stated (`Engines.Engine.RunToIdle`): the backend's
passes fail only for want of cells, every request has a token limit and fits its window, callers stay, and the
batch and the pool are as large as `Ample` and `Provisioned` say. `Manifests.ServedAmply` and
`Manifests.ServedWithoutEviction` say which manifests give that. Without those conditions every stream that ends
is still accounted for (`Engines.Engine.Tick`, `Engines.Engine.Finish`): what its caller received is a beginning of
plain decoding, and the reason given is the true one. What plain decoding is, in tokens, text and reason and without
its steps, is `Decoding.PlainIsTheAnswer`. That the requests running, waiting and over are at all times
exactly those ever accepted is part of the invariant every operation of the engine keeps.

## Model

| member | source | states |
|---|---|---|
| Engines.Engine.RunToIdle | internal/engine/engine.go:335-364 | For every drafter, batch size, map order, interleaving and sharing, the loop terminates; the requests that ended since, counted with repetition, are exactly those that were running and waiting, no other and none twice; and each caller has received the one answer the model has to its request: the tokens the model draws after the prompt, one after another, as the renderings of those tokens in order, up to the first end of text, stop sequence, limit or failure, and that reason; all of the bytes but those of a character never completed; only where drafts cannot always be taken back may a stream instead receive a beginning of that and an explicit error |
| Engines.Engine.Tick | internal/engine/engine.go:405-648 | A successful tick re-establishes the two-part cache invariant of every slot (both parts of a sequence have absorbed the same tokens, prompt and output are cached, replay and the token in hand together), moves no stream's output off plain decoding, ends streams only with a justified outcome, cannot evict when every promise fits the pool, and with room in the batch strictly lowers what is left to do |
| Engines.Engine.StageBatch | internal/engine/engine.go:455-608 | Both passes keep every slot's entries and its cache in agreement, change nothing a stream has said, and with room for all, every stream either stages a row with logits or feeds part of its prompt |
| Engines.Engine.StageStream | internal/engine/engine.go:456-569 | One stream past its prompt stages its replay, or its next token and drafts, and nothing of another sequence; it stages its next token exactly when the replay leaves room for it; the drafter is asked exactly once when there is nothing to replay, drafting is allowed, there is room and a way back, and never otherwise |
| Engines.Engine.FeedDrafts | internal/engine/engine.go:522-567 | The token in hand then the proposals are staged in order, each with a row that follows exactly the tokens before it; the drafter is asked for as many as its bound and the batch allow, about that token at that position, exactly when drafting is allowed and a snapshot that is needed could be taken; the snapshot of the state before the drafts exists whenever drafts were staged and will be needed; the batch's capacity is never exceeded |
| Engines.Engine.FeedProposals | internal/engine/engine.go:557-566 | What is staged is a prefix of what was proposed, and all of it unless the batch is full |
| Engines.Engine.PrefillStream | internal/engine/engine.go:578-605 | Prefill feeds the next tokens of the prompt, at the positions after those cached, until they run out or the batch is full, and asks for logits on the last |
| Engines.Engine.Harvest | internal/engine/engine.go:650-757 | After sampling every slot, in any order, each is idle again with the invariant intact or has ended with a justified outcome |
| Engines.Engine.Verify | internal/engine/engine.go:766-820 | Drafts are accepted exactly as far as the model draws them: when the stream goes on, all of them were accepted or the next one is not what the model drew, which stands in its place; when it ends, what plain decoding emits from there begins with the accepted drafts, and one more draw than those was made; it stops, errs or goes on as plain decoding does at that step |
| Engines.Engine.Advance | internal/engine/engine.go:666-738 | A pass over one stream goes as far as its drafts agree with the model, then gives up exactly the rest: the slot is idle again with the invariant intact, or ended as plain decoding ended, or failed where a draft could not be taken back |
| Engines.Engine.JudgeSlot | internal/engine/engine.go:653-757 | A slot that was sampled ends for a true reason or goes on, and it goes on only below one sequence's context and only as far as its drafts agreed |
| Engines.Engine.TakeBack | internal/engine/engine.go:695-738 | Taking back a rejected tail leaves both parts of the state agreeing, and cache and replay together equal to what was kept; it cannot fail on a positional cache or where snapshots always restore |
| Engines.Engine.Finish | internal/engine/engine.go:854-885 | Ending a stream frees its sequence once, drops its snapshot, cache and sampler and no other's, and closes its stream with the ending that is justified |
| Engines.Engine.OnFullCache | internal/engine/engine.go:631-643 | When the cache refuses the batch one stream is evicted, and of the others a slot still agrees with its cache if and only if it had staged nothing |
| Engines.Engine.EvictOne | internal/engine/engine.go:889-900 | The stream that has generated the most makes way: its own request ends, with the reason that the context is exhausted, and no other changes |
| Engines.Engine.Submit | internal/engine/engine.go:222-284 | A request whose prompt and limit are below 2^32 is queued if and only if its prompt is not empty, prompt and limit together fit the window (512 for a request that names none), the engine is open and the queue has room; beyond 2^32 the same of the numbers as 32 bits hold them; every refusal names the first condition that fails, in that order; a queued request is one more among those accepted, and one that names a limit is a reservation within its window |
| Engines.Engine.PromptBudget | internal/engine/engine.go:291-311 | The budget and the output it reserves make up the window, and it is nothing when the output alone does not fit |
| Engines.Engine.Window | internal/engine/engine.go:291-303 | The window is one sequence's context, or the pool's where that is not known, or the admission cap when that is less |
| Engines.Engine.AdmitOne | internal/engine/engine.go:367-397 | The longest waiting request gets the sequence at the head of the free list, or, if its caller has gone, is closed: the stream that is over is that request's, and nothing was sent on it |
| Engines.Engine.Drain | internal/engine/engine.go:902-916 | Draining ends every active and queued stream: the requests that ended are exactly those that were running and waiting, counted with repetition |
| Engines.Engine.DecodeBatch | internal/engine/engine.go:610-646 | Once decoded, every slot's rows are what its entries said; with every stream reserved and the pool large enough the cache cannot refuse |
| Engines.Engine.ShareFrom | internal/engine/prefixshare.go:56-82 | An adopted prefix leaves the borrower holding exactly the tokens prefill would have cached with at least one still to feed; a share that failed or did nothing leaves its position and pending tokens as they were |
| Engines.Engine.ShareInto | internal/engine/prefixshare.go:44-83 | The backend is asked for at most one loan, of a prefix of at least 256 tokens than which no stream that stays can lend more, and it is asked whenever such a stream can lend that many |
| Engines.Engine.SharePrefixes | internal/engine/prefixshare.go:44-83 | Sharing among any streams in any order, with borrowers lending on, keeps every invariant and touches no stream past its prompt |
| Tables.BestDonor | internal/engine/prefixshare.go:93-122 | The donor lends the longest cached common prefix any live stream can lend, the lowest sequence among equals |
| Tables.CountShared | internal/engine/prefixshare.go:129-140 | The length of the longest common prefix of two prompts |
| Tables.PoolSuffices | internal/engine/engine.go:291-311 | If the pool holds every stream at its peak, no table of held and reserved streams overfills it |
| Tables.TipFits | internal/engine/engine.go:748-755 | A reserved stream never holds more cells than its peak: its window less one and the most it drafts, and one cell when the window leaves no token to draft for |
| Tables.NeverOverfillsWhen | internal/engine/engine.go:291-311 | Tables of held and reserved streams never overfill a pool, whatever the model, if and only if the pool holds every stream at its peak and one sequence's context holds one |
| Tables.AllAtPeak | internal/engine/engine.go:522-567 | Where it does not, a table that overfills it: every stream held, reserved, one token from its limit and with all its drafts staged |
| Tables.AllEnded | internal/engine/engine.go:902-916 | When nothing runs or waits any more, those that ended since are exactly those that ran or waited then |
| Tables.TickGains | internal/engine/engine.go:455-608 | A tick that staged something for some stream and harvested it lowers the sum of pending prompt tokens and remaining output tokens |
| Tables.RefusedBatch | internal/engine/engine.go:637-641 | After a refused batch a slot agrees with its cache exactly when no entry of the batch was its own |
| Tables.RefusedPrompt | internal/engine/engine.go:584-600 | Two one-token prompts staged for a pool of one cell: the batch overfills it, each slot agrees with what was staged, and whichever stream is evicted the other's slot claims a cell the cache does not hold |
| Tables.FinalIsServed | internal/engine/engine.go:854-885 | In an engine that neither stopped nor evicted, a reserved stream whose caller stayed received the one answer to its request in full, or, where the backend may fail, a beginning of it |
| Slots.DonorHolds | internal/engine/prefixshare.go:85-92 | A donor's cache begins with its own prompt as far as it reaches, so what it lends is what the borrower's prompt asks for |
| Slots.AcceptToken | internal/engine/engine.go:788-800 | Emitting one drawn token changes a slot's text, buffer and events as one step of plain decoding does, of which Decoding.PlainIsTheAnswer says what it is |
| Decoding.RunningShape | internal/engine/engine.go:766-820 | Plain decoding that still runs has emitted one token per draw, is below its limit, and ends in no stop sequence |
| Decoding.EndedIsFinal | internal/engine/engine.go:748-757 | Once ended, a generation is the same however long one watches |
| Decoding.PlainGrows | internal/engine/engine.go:766-820 | A shorter generation is a prefix of a longer one in tokens, text and pieces |
| Decoding.SentIsText | internal/engine/engine.go:825-835 | The pieces handed out are together exactly the text released |
| Decoding.PlainIsTheAnswer | internal/engine/engine.go:774-835 | Plain decoding stated without its steps: every token is the one the model draws after the prompt and those before it, none of them the end of text; generation stops at the first stop sequence, limit, end of text or failure and for that reason; text and buffer are together the renderings of the tokens in order, the text is their complete characters, and that text is what is handed out, in no empty pieces |
| Decoding.OneAnswer | internal/engine/engine.go:774-820 | A request has at most one finished answer: tokens and reason are determined by the model alone |
| TaggedCells.SharingIsTransparent | internal/engine/prefixshare.go:39-44 | On a cache of cells tagged with sets of sequences, after any run of writes, lends, cuts and drops every sequence holds exactly the tokens it would hold had it computed all of them: the borrower outlives the donor and may lend on |
| TaggedCells.CountedInFull | internal/engine/prefixshare.go:12-14 | Counting each sequence in full never counts fewer cells than are in use |
| TaggedCells.LendPrefix | internal/llama/prefixcache.go:70-80 | The backend's share keeps cells and histories in step, whether it refuses, does nothing, or lends |
| TaggedCells.Decode | internal/llama/runner.go:346-372 | A decoded pass is a run of writes to the tagged cells, one for each entry |
| TaggedCells.TrimTail | internal/llama/runner.go:453-464 | Trimming a sequence takes its tag from the cells at and past the position and leaves other sequences' histories alone |
| TaggedCells.DropAll | internal/llama/runner.go:535-544 | Freeing a sequence takes only its own tag away |
| Utf8.CompleteUtf8 | internal/engine/engine.go:919-952 | The loop computes the specified cut of a buffer |
| Utf8.CutIsExact | internal/engine/engine.go:919-952 | Of any prefix of a well-formed text (section 4 of RFC 3629) exactly the whole characters are released, and what is held is the shortest incomplete tail, at most three bytes |
| Utf8.StreamingIsExact | internal/engine/engine.go:825-835 | However a well-formed byte stream is split into pieces, all text emitted is well formed, what is buffered is an unfinished character, and nothing is buffered once the stream is complete |
| Utf8.NothingLost | internal/engine/engine.go:825-835 | For any bytes at all, emitted text and buffer are together exactly the bytes received |
| Lookups.Lookup.Draft | internal/draft/lookup.go:101-137 | A proposal is exactly what followed the most recent earlier occurrence of the last n tokens, as far as room and history go; nothing is proposed exactly when there is no such occurrence, or no room; and the proposal remembered is that one, none when none was found, and the old one when nothing was looked for |
| Lookups.Lookup.Accept | internal/draft/lookup.go:144-160 | Exactly the kept part of the last proposal enters the history, and no other stream's history changes |
| Lookups.Lookup.Seed | internal/draft/lookup.go:71-78 | The history becomes the tail of the prompt, and the last proposal is forgotten |
| Lookups.Drive | internal/engine/engine.go:537-567 | Driven by the engine's protocol, which asks for a draft only when there is room for one, history is always the tail of the prompt and of what was emitted in the passes that asked |
| Lookups.HistoryIsExactWhen | internal/draft/lookup.go:139-160 | History is the prompt and everything emitted before the token in hand if and only if every pass had room for a proposal (while nothing is trimmed; and if every pass had room, also when it is) |
| Lookups.NoRoomLosesAToken | internal/engine/engine.go:538-539 | One pass with a full batch: the token in hand is emitted and never enters the history |
| Lookups.TailOfTail | internal/draft/lookup.go:88-93 | Trimming as tokens arrive is trimming at the end |
| Lookups.TailIsTheEnd | internal/draft/lookup.go:88-93 | The tail kept ends where the history ends, is within the bound, and is cut only to be |
| Manifests.Validate | internal/manifest/manifest.go:217-361 | Exactly the problems there are, of those modelled, are reported, each with the entry it is in |
| Manifests.PassedWhen | internal/manifest/manifest.go:217-361 | A manifest passes the modelled checks if and only if it has entries, no two of a name, and each is named, has a context of at least 256 for each stream, holds its streams and, as 32 bits have it, their drafts in its batch, and is admitted within its context, with a cap where streams share one pool |
| Manifests.PassedHasRoom | internal/manifest/manifest.go:298-308 | Of every entry that passes, the batch in force holds a full draft for every stream if and only if streams times (max_draft + 1) fits 32 bits, where the check saw all three numbers, and where one was left to its default if and only if the numbers in force fit |
| Manifests.PassedWithoutRoom | internal/manifest/manifest.go:194-213 | Three entries that pass although their drafts cannot fit: a product that wraps, a batch left to its default, a drafter's bound left to its default |
| Manifests.PassedIsReserved | internal/manifest/manifest.go:326-355 | An admission cap that passes, times the streams, never exceeds the context |
| Manifests.PassedNeverOverfills | internal/manifest/manifest.go:322-355 | Of every entry that passes, reserved streams never overfill the pool if and only if the window is at most 2 or streams * (window + drafts - 1) fits the context |
| Manifests.ServedAmply | internal/manifest/manifest.go:298-308 | The scheduler serving an entry that passes has room to feed every stream every tick under exactly that condition |
| Manifests.ServedWithoutEviction | internal/manifest/manifest.go:322-355 | The scheduler serving an entry that passes is provisioned, so that it never evicts, exactly when no table of held and reserved streams overfills its pool, and that is exactly when the window is at most 2 or the promises and one step's drafts together fit the context; without a drafter always |
| Manifests.PassedYetShort | internal/manifest/manifest.go:326-355 | An entry of four streams of 1024 in 4096 with drafts of 7 that passes, and a table of four held and reserved streams, one token from their limits with seven drafts staged, that overfills its pool |
| Tarjan.SCC | internal/dag/dag.go:31-109 | The frame loop terminates, and the components are exactly the classes of mutual reachability of the nodes the input reaches: sorted, each node once, every component after all components it depends on at any distance |
| Tarjan.Visit | internal/dag/dag.go:58-77 | Looking at one dependency, new or seen, keeps the walk's invariant and uses up part of the work left |
| Tarjan.Unwind | internal/dag/dag.go:80-90 | What comes off the stack down to a node is exactly the nodes on it discovered no earlier |
| Tarjan.ClassIsComponent | internal/dag/dag.go:78-92 | Two nodes are emitted together if and only if each reaches the other |
| Tarjan.DependsOnEarlier | internal/dag/dag.go:79-101 | A node reaches only components emitted no later than its own |
| Condensation.Condense | internal/dag/dag.go:118-187 | Every component is emitted once, in order of level and then of first name; a component's level is more than that of each it depends on, and when it is above zero some dependency lies exactly one below |
| Condensation.NeverStuck | internal/dag/dag.go:168-172 | While components remain some component is ready, so the break for an unreachable state never fires |
| Condensation.Reproducible | internal/dag/dag.go:118-187 | The condensation is unique: whatever order the maps are walked in, the result is the same list |
| TaskGraphs.Sort | internal/vcontext/dag.go:64-129 | Sorting succeeds if and only if ids are present and unique, no dependency is missing and the graph is acyclic; otherwise the fault names an empty or repeated id, the first missing dependency, or exactly the tasks on or behind a cycle |
| TaskGraphs.Register | internal/vcontext/dag.go:65-76 | The first bad id is reported, or every id is known once |
| TaskGraphs.Link | internal/vcontext/dag.go:78-88 | The first missing dependency is reported, or every task's count and every list of dependents are those of the graph |
| TaskGraphs.TiersOf | internal/vcontext/dag.go:90-129 | The level loop ends in tiers that hold every task, or in the tasks left over when nothing more can start |
| TaskGraphs.LeftIsBehindCycle | internal/vcontext/dag.go:101-112 | When no task can start, those left are exactly the tasks that reach a cycle |
| TaskGraphs.TiersPartition | internal/vcontext/dag.go:94-127 | Every task stands in the one tier of its level, and no tier holds anything else |
| TaskGraphs.TierIsLongestChain | internal/vcontext/dag.go:94-127 | A task's tier is the length of its longest chain of prerequisites |
| TaskGraphs.CriticalPath | internal/vcontext/dag.go:154-183 | On an acyclic graph the path is a real chain of dependencies and no chain is longer |
| TaskGraphs.CriticalPathCountsTiers | internal/vcontext/dag.go:149-183 | The critical path is as long as there are tiers |
| Schedules.Schedule | internal/vcontext/schedule.go:109-258 | Refused exactly when sorting refuses or concurrency is below one; otherwise, whatever the interleaving, every task has exactly one result, by tier and then in request order, and it is the result of sequential evaluation in tier order: its text, its error, or blocked by a failed prerequisite; at least the tasks without prerequisites are in flight together, and never more than there are tasks |
| Schedules.Scheduler.Step | internal/vcontext/schedule.go:194-230 | Any launched task may pass the semaphore when there is room and any executing one may come back; every such step keeps the invariant, holds executions to the concurrency, brings the run nearer its end, and raises the peak to the tasks in flight exactly when they are more |
| Schedules.Scheduler.Run | internal/vcontext/schedule.go:233-236 | The run ends with nothing ready, waiting or executing |
| Schedules.Scheduler.Launch | internal/vcontext/schedule.go:174-193 | Everything ready is launched, with exactly its prerequisites' outputs, and the peak counts what is launched |
| Schedules.SucceedKeeps | internal/vcontext/schedule.go:221-228 | A success makes ready exactly the tasks whose last prerequisite it was, and keeps the run's invariant |
| Schedules.FailKeeps | internal/vcontext/schedule.go:211-220 | A failure blocks everything behind it, keeps every other result, and keeps the run's invariant |
| Schedules.BlockAll | internal/vcontext/schedule.go:156-172 | The recursion adds a blocked result naming the cause to tasks behind the failure only, changes no result already there, and leaves no dependent without one |
| Schedules.StoppedWhen | internal/vcontext/schedule.go:156-172 | A task is blocked if and only if some transitive prerequisite failed |
| Schedules.AllFinished | internal/vcontext/schedule.go:244-252 | When nothing is ready, waiting or executing every task has a result, so the branch for a task never scheduled is dead |
| Schedules.OneFate | internal/vcontext/schedule.go:97-109 | What the tasks come to is determined by the graph and the executor alone |
| Schedules.TierOrderEvaluates | internal/vcontext/schedule.go:97-109 | Evaluating tier by tier is one way of coming to it |
| Schedules.SortByTier | internal/vcontext/schedule.go:254-256 | Results stand in tier order, and within a tier as they stood |
| Sampling.NarrowingIsSound | internal/llama/sampler.go:134-145 | For any lowering of logits, if as many tokens are kept as top-k wants and were touched, the choices of the k best are the same sets from the kept tokens as from the whole vocabulary, ties included |
| Sampling.HeadroomIsExact | internal/llama/sampler.go:142-145 | Keeping n tokens is enough for every logits and every lowering of at most r of them if and only if k is zero or n is at least k + r; so no narrowing survives a sampler that may touch more than it keeps |
| Sampling.ChainNarrows | internal/llama/sampler.go:146-154 | A chain narrows if and only if it draws at a temperature from a top-k of known size and min-keep, and the size with the window and sixteen, are both less than the vocabulary and not both nothing; it is then given the greater of the two |
| Sampling.ChainHasHeadroom | internal/llama/sampler.go:146-154 | A chain that narrows keeps top-k and its penalty window if and only if the window is at least -16 or min-keep makes up for it |
| Sampling.PenaltiesLower | internal/llama/sampler.go:137-140 | The penalties raise no logit, for any counts, if and only if the repeat penalty is at least one and the flat penalties are no bonus at the least and at the greatest count |
| Sampling.SoundWithoutGrammar | internal/llama/sampler.go:146-186 | With sane penalties, a chain that narrows hands top-k the same choices as the whole vocabulary would, for all logits, windows and masks and every cutoff the histogram can give, if and only if it has no grammar |
| Sampling.GrammarBreaksNarrowing | internal/llama/sampler.go:163-186 | An 18-token chain with a grammar, its histogram cutoff and the mask: exactly the 17 forbidden tokens are kept |
| Sampling.ForbiddenIsTaken | internal/llama/sampler.go:163-186 | Of those 17 the chain takes a forbidden one, and of the whole vocabulary it would take the allowed one |
| Sampling.Sampler.CutoffFor | internal/llama/sampler.go:425-467 | The cutoff is the edge a margin below the highest bucket with enough of the logits read in or above it, and is refused exactly when there is none; reading every logit it keeps at least as many as asked whenever that many are in range |
| Sampling.Sampler.CountLogits | internal/llama/sampler.go:426-442 | Each bucket holds the number of logits read that fall in it, every stride'th from the first to the last |
| Sampling.Sampler.SelectCandidates | internal/llama/sampler.go:367-411 | The buffer holds exactly the tokens at or above the cutoff, in order, and at least as many as asked; in exact arithmetic narrowing is given up if and only if fewer than that many logits are in range |
| Sampling.CountedIsKept | internal/llama/sampler.go:413-424 | What the chosen bucket counts is kept by its edge |
| Planning.PlanIsSound | internal/vcontext/plan.go:57-116 | A plan is made for exactly the policies that can work and measures that are not negative, and it is the one called for: direct when one stream holds the request; refused when all together cannot; otherwise the fewest chunks that hold it, twice that many or as many as there are streams for work that generates much, each with the even share, less than which would not hold it; every share fits a stream |
| Planning.OnePlan | internal/vcontext/plan.go:57-116 | A request calls for one plan |
| Planning.CeilDivIsLeast | internal/vcontext/plan.go:119-124 | The quotient rounded up is the least number of pieces that hold the whole |
| Splitting.SplitAt | internal/vcontext/split.go:98-201 | With a counter that is monotone on prefixes and costs at most one per byte, splitting never fails; every chunk fits the limit and is the text at its offsets, chunks are in order and disjoint, only new lines or only spaces lie between two, and blank after the last; every label is true; and the chunks are the cuts at the target with the tail folded as specified |
| Splitting.PlanThenSplit | internal/vcontext/split.go:98-201 | Planning and then splitting: an error exactly for a policy that cannot work or a negative measure, refused exactly when the streams together cannot hold the text, and otherwise divided by the plan its measure calls for, down to the number of chunks and the even share, with the greedy cuts at that share folded; with a counter that can be relied on never a failure: always a faithful ordered split of the text into chunks that each fit a stream |
| Splitting.PlanSuitsItsText | internal/vcontext/plan.go:57-116 | A plan made for the text's own measure meets what splitting needs, and its limit is what a stream can use |
| Splitting.EveryByteKept | internal/vcontext/split.go:126-153 | Every byte that is neither a new line nor a space, up to the blank tail, is in a chunk |
| Splitting.ChunksAreDisjoint | internal/vcontext/split.go:143-148 | And in one only |
| Splitting.CutAt | internal/vcontext/split.go:237-278 | The cut is the one specified in full: the longest prefix within the target, moved back to the best boundary of the ladder in its last fifth, with all the separating bytes that follow it dropped and no other; it always makes progress |
| Splitting.FindLanding | internal/vcontext/split.go:242-252 | The binary search finds the longest prefix within the target |
| Splitting.BestBoundary | internal/vcontext/split.go:259-277 | Declaration, paragraph, sentence, word, then the target itself: each the last in the window, and only when none ranked above it exists |
| Splitting.LastIndexWithin | internal/vcontext/split.go:282-292 | The greatest end of a separator starting in the final window, or zero |
| Splitting.LastSentenceEnd | internal/vcontext/split.go:295-303 | The greatest end of any sentence terminator in the window |
| Splitting.LastBoundWithin | internal/vcontext/split.go:226-235 | The greatest supplied boundary in the window |
| Splitting.LocalBounds | internal/vcontext/split.go:211-223 | Exactly the boundaries inside the remainder, in its frame |
| Splitting.TruthfulInWhole | internal/vcontext/split.go:203-223 | A label true of the remainder is true of the whole text, so a declaration cut ends on a supplied boundary |
| Splitting.FoldTail | internal/vcontext/split.go:155-198 | A last chunk under a quarter of the target is joined to the one before it if both fit together, else the two are cut afresh at half their measure if both halves fit, else left; chunks stay in order, faithful and disjoint |
| Spans.Index.Sort | internal/vcontext/span.go:56-77 | Sorting and merging in place leaves spans in order, no two touching, covering exactly the bytes covered before, each old span absorbed by one at least as heavy, and each new one beginning and labelled as one of the old spans in it, and ending and weighing as others of those in it do |
| Spans.SortKeepsTheDocument | internal/vcontext/span.go:52-77 | The same of the whole index, and an index valid for a source stays valid |
| Spans.Compact | internal/vcontext/span.go:63-76 | The compaction over the list being read equals the merge of the list as it was |
| Spans.Index.Validate | internal/vcontext/span.go:83-93 | An index is accepted if and only if every span is a non-empty region of the source; a bad one is named |
| Segments.SplitKeepingOffsets | internal/vcontext/segment.go:62-82 | Pieces in order and disjoint that cover everything but new lines, each from the start or a blank line to the next blank line or the end, with none inside |
| Segments.SplitSentences | internal/vcontext/segment.go:86-112 | Pieces in order and disjoint that cover everything but white space, each running to its first terminator |
| Segments.Segment | internal/vcontext/segment.go:18-56 | Spans of the chunk in order and disjoint, none blank: each is a paragraph that fits the limit, or one sentence of a paragraph that does not; and together they are everything of the chunk that is not white space or a blank stretch |
| Segments.SegmentAll | internal/vcontext/segment.go:115-122 | The index of any chunks validates against the source, no two spans touch, and nothing of the chunks but white space is left out |
| Selections.Select | internal/vcontext/select.go:57-130 | Selected if and only if the budget is positive, the index validates, the ranking succeeds and lies in the source, and the best span fits; then the greedy choice within the budget, in source order, with its exact cost, and truncated if and only if something was left out; every refusal is for a true reason |
| Selections.LeftOutWouldNotFit | internal/vcontext/select.go:73-99 | The best span is always taken, first, and no span left out would still fit beside all that were taken |
| Selections.CoverageIsTrueWhen | internal/vcontext/select.go:121-129 | The reported coverage is the share of the source actually shown, for every budget, if and only if no two spans of the ranking share a byte |
| Selections.LenIsShown | internal/vcontext/select.go:121-124 | The sum of the lengths is the number of bytes shown if and only if no two spans overlap |
| Selections.PicksAreApart | internal/vcontext/select.go:21-25 | A ranking without repeats of a merged index is such a ranking |
| Selections.CoverageCanExceedOne | internal/vcontext/select.go:121-129 | A selection from a ranking that names one span twice, reported as twice the source |
| Selections.Assemble | internal/vcontext/select.go:137-157 | The assembled text is the header and then the passages in order with a mark wherever one begins past the end of the last, refused if and only if a span is outside the source |
| Selections.GapsAccountForTheRest | internal/vcontext/select.go:132-136 | Giving every mark back the text it counts restores the source from the first passage to the last: nothing is spliced without a sign, shown twice, or miscounted |
| Selections.PassagesAreTheSpans | internal/vcontext/select.go:144-155 | Every passage is a selected span, every mark counts at least one byte and stands between two passages |
| Gguf.ReadFile | internal/gguf/gguf.go:57-106 | The reader with its latched error and reused buffer returns a directory if and only if the bytes begin with the encoding of that directory, with some metadata within the format's bounds; otherwise an error |
| Gguf.DirectoryRoundTrip | internal/gguf/gguf.go:57-106 | Any file that starts with the encoding of a directory within the reader's bounds reads back as that version and those tensors, whatever its metadata: every number, truth value, float, string and nested array of the format, each encoded by its own width, in two's complement where it is signed, and little-endian |
| Gguf.DirectoryRead | internal/gguf/gguf.go:57-106 | Nothing else is read: whatever directory is returned, the bytes begin with its encoding, with metadata that is shown, and the reading ends where the encoding does |
| Gguf.TruncationIsAnError | internal/gguf/gguf.go:74-105 | Every strict prefix of such an encoding is an error |
| Gguf.DirectoryGrows | internal/gguf/gguf.go:148-157 | More bytes after a readable directory change nothing that was read |
| Gguf.LittleRoundTrip | internal/gguf/gguf.go:158-159 | A number in range comes back from its little-endian bytes |
| Gguf.ValueRoundTrip | internal/gguf/gguf.go:158-159 | And bytes come back from the number they spell |
| Gguf.Reader.Fill | internal/gguf/gguf.go:148-156 | The next bytes are delivered in order, or the error is latched exactly when they run out or it already was |
| Gguf.Reader.SkipValue | internal/gguf/gguf.go:179-210 | A value of any type is passed over exactly as Gguf.Skip has it, which Gguf.DirectoryRoundTrip and Gguf.DirectoryRead tie to the typed encoding, and unknown types and oversized arrays are errors |
| ToolXml.ParseToolXml | internal/api/toolxml.go:41-67 | The parser's calls and kept text are those the text means, whatever the tags inside it |
| ToolXml.ParseFunctionBlock | internal/api/toolxml.go:70-122 | A block is the call its function tag and parameters spell, or no call |
| ToolXml.RoundTrip | internal/api/toolxml.go:10-20 | Any prose and calls printed in the documented form, with names and keys that can be carried and values free of the closing tags and not edged with new lines, parse back to the same calls in order, an object or list as structure and any other value as text, and the same prose |
| ToolXml.ComesBackWhen | internal/api/toolxml.go:50-64 | Of a call with a trimmed non-empty name and keys without a bracket, and such values, between any prose, exactly the call and the prose come back if and only if neither the name nor a key ends in the closing tag short of its bracket |
| ToolXml.WholeBodyWhen | internal/api/toolxml.go:50-58 | The parser sees the whole body of such a call under the same condition |
| ToolXml.NameEndingInTheTag | internal/api/toolxml.go:50-58 | A call of a tool named "a</tool_call" does not come back |
| ToolXml.NoCallsNoChange | internal/api/toolxml.go:38-40 | A text that yields no call is kept unchanged |
| ToolXml.TemplateIsDistinguishable | internal/api/toolxml.go:10-20 | The template's own tags have the properties the proofs use of tags |

## Findings

Properties the documentation or the code's comments suggest that are false of the code. The code is modelled as it
is; each has its input and the exact condition under which the property holds.

| property | input on which it fails | holds exactly when |
|---|---|---|
| The batch check keeps a full herd's drafts within the batch (internal/manifest/manifest.go:298-308) | 65536 streams, batch 65536, max_draft 65535: the product is 0 in 32 bits; 1024 streams drafting 7 with no batch written; 64 streams in a batch of 64 with a drafter and no max_draft written (`Manifests.PassedWithoutRoom`) | all three written (or no drafter): streams * (max_draft + 1) < 2^32; no batch written: streams * (drafts + 1) <= 2048; no max_draft written: streams * 5 <= batch; no streams written: drafts + 1 <= the batch in force (`Manifests.PassedHasRoom`) |
| Admission caps reserve the pool (internal/manifest/manifest.go:322-355) | 4 streams of 1024 in 4096 with a drafter of 7: each one token from its limit with seven drafts staged, 4 * 1030 cells (`Manifests.PassedYetShort`) | the window is at most 2, so that there is never a token to draft for, or streams * (window + drafts - 1) <= context (`Manifests.PassedNeverOverfills`); always without a drafter. The condition is on the slot tables the invariant allows, whatever the batch |
| Narrowing candidates does not change the draw (internal/llama/sampler.go:134-145) | 18 tokens, top-1, the 17 best forbidden by the grammar (`Sampling.GrammarBreaksNarrowing`, `Sampling.ForbiddenIsTaken`) | of chains whose window leaves headroom and whose penalties are no bonus: the chain has no grammar (`Sampling.SoundWithoutGrammar`). What those two provisos ask for is itself exact: the headroom is there when the window is at least -16 or min-keep makes up for it (`Sampling.ChainHasHeadroom`), and no logit is raised when the penalties are no bonus (`Sampling.PenaltiesLower`) |
| Coverage is a fraction of the source (internal/vcontext/select.go:35-37) | one span of two bytes ranked twice, coverage 2 (`Selections.CoverageCanExceedOne`) | no two spans of the ranking share a byte (`Selections.CoverageIsTrueWhen`); a merged index ranked without repeats is enough (`Selections.PicksAreApart`) |
| A printed call is read back (internal/api/toolxml.go:10-36) | a tool named "a</tool_call" (`ToolXml.NameEndingInTheTag`) | neither the name nor a key ends in "</tool_call" (`ToolXml.ComesBackWhen`) |
| After an eviction the rest make progress (internal/engine/engine.go:637-641) | two one-token prompts staged for a pool of one cell: one is evicted, the other believes it is cached (`Tables.RefusedPrompt`) | a surviving stream still agrees with its cache exactly when it staged nothing in the refused batch (`Tables.RefusedBatch`, `Engines.Engine.OnFullCache`) |
| The drafter's history is exact (internal/draft/lookup.go:139-160) | one pass without room for a proposal (`Lookups.NoRoomLosesAToken`) | every pass has room for a proposal (`Lookups.HistoryIsExactWhen`) |

Where code and comments disagree the model follows the code:

- `admit` gives the sequence at the head of the free list, which after the first round is not the lowest
  (internal/engine/engine.go:380-383).
- A stream closed between ticks is skipped by both passes and by the sampling of the same tick unless it has
  logits, so its release may come later than the next tick (internal/engine/engine.go:456, 578, 654).
- The peak of a run counts launched tasks, also those waiting for the semaphore, and is not bounded by the
  concurrency (internal/vcontext/schedule.go:189-192).
- The checks of a cut that makes no progress or yields no piece never fire (internal/vcontext/split.go:134-152).
- Halving the last two chunks does not always cure a runt: when a half does not fit, the runt stays
  (internal/vcontext/split.go:176-196).
- Lengths and limits are truncated to 32 bits on submission (internal/engine/engine.go:230, 304-306).

## Left out

- Slots are values in the table: the loop's pointers to slots, and aliasing between the table and the queue, are not modelled; every update is written back to the table.
- Media prefill: it marks a slot as past its prompt with no token drawn, and its cells do not match its tokens.
- Eviction: what survivors of a refused batch emit afterwards is not followed; `Engines.Engine.OnFullCache` says which are still sound.
- Cancellation: callers may leave at any moment and every outcome stays justified, but no bound on when an abandoned stream is released is proved.
- Sharing over a cache that is not positional: the model requires a backend that shares to be positional; the rewinder is proved without sharing.
- Forward passes that fail for another reason stop the loop; `Engines.Engine.DecodeBatch` keeps the invariant and nothing is claimed after.
- Tables.BestDonor: streams whose callers have gone are excluded by their flag at the moment they are looked at; two calls may differ.
- Lookups.Drive: the replay pass of a rewinder never asks the drafter and is not among the passes; a drafter that reads hidden states is not modelled.
- Manifests.Validate: the checks of names' paths, cache types, split modes and speculation kinds are left out; the context a backend really allocates may be rounded.
- Schedules.Schedule: cancellation of a run, its timing and its locks; the semaphore and the completions are steps of a transition system, and the executor is a function.
- TaskGraphs.CriticalPath: on a cyclic graph nothing is promised; the recursion then ends because the memo is filled before it descends.
- Sampling: logits are exact reals and the float-to-integer conversion is a parameter that truncates in range and is arbitrary outside; rounding of float32 at bucket edges is not modelled. Top-p, min-p, temperature and the draw itself come after top-k and are left out.
- Splitting.SplitAt: white space is a parameter, so is the counter; a plan of one chunk is not measured against the limit, as in the code.
- Segments and ToolXml: which characters are white space, and which texts are well-formed JSON, are parameters; the encoding of arguments back to JSON is left out.
- Selections.Select: the retriever is a function of the index; relevance, the query and lexical ranking are left out. Text marks are produced by a parameter from the number of bytes omitted.
- Gguf.ReadFile: allocation, the meaning of tensor types and offsets, and lookup by name.
- The kind prior of the code graph, JSON flattening, parallel prefill, the HTTP surface, the command line, benchmarks, metrics and foreign calls.
