# Orchestrator core: a Dafny model

This project models the parts of the orchestrator where text, state or arithmetic has to agree with a
simple specification over unbounded runs, and proves that it does. Verify it with
`dafny verify dfyconfig.toml`.

## What is modelled

* **Think-tag splitting** (`Text`, `ThinkSplitter`, `StripThink`). The streaming splitter is a class that
  cuts chunks into answer and reasoning text and holds back every suffix that could start a tag. Its
  specification is a scan of the whole text that sees one character at a time and holds nothing back. The
  whole-string path is modelled beside it, and the two are compared.
* **Dispatch gates** (`RepeatWindow`, `DispatchGates`). The stateful gates of the tool-call pipeline as
  methods of one class: counted refusals, the single harness-side delegation, the tools-off wrap-up, and
  the two sliding windows of repeated calls. What the model asks for, what the classifiers answer and what
  happens between calls are free inputs.
* **Finishing a run** (`FinalGuards`). The nine one-shot final-answer guards with their bounce cap and the
  remembered fallback, the verifier retry loop, and the iteration limit, over arbitrary scripts of turns.
* **Run budget** (`RunBudget`). The four ceilings, the warning pressure, and the wall-clock extensions.
* **Overlay store** (`Overlay`, `OverlayStore`). Validation, merge, and the append-only versioned table
  with optimistic concurrency and rollback. Each write transaction is one atomic step; a run is any
  interleaving of steps of any number of clients.
* **Transcript compaction** (`Json`, `Transcript`, `Compaction`, `CompactionLaws`). In-place rewriting of
  old tool results, on an array of messages, with JSON printing written out in full.
* **Exact statistics** (`EvalStats`). Binomial tails over exact rationals and the Wilson interval over the
  reals.
* **Concurrent delivery** (`ParallelDownload`, `EventBus`). A range-partitioned download as a state machine
  whose workers interleave chunk by chunk, and the bounded publish/subscribe bus with replay.
* **Small algorithms** (`ProcessTree`, `BfclMatch`, `EvalBudget`). Process closure, greedy call matching,
  and the money bounds on evaluation calls and suites.

Each mutating object of the original is a class whose methods state their new state through specification
functions; the theorems are lemmas about those functions and methods over whole runs.

## Where the code differs from what it says

* A successful harness-side delegation is documented to cancel a pending wrap-up
  (`runtime/dispatch_guards.py:170-173`). Nothing in the code ever clears the flag; it only prevents the
  wrap-up that the same refusal would have started. `DispatchGates.WrapUpOutlivesDelegation` is a run in which
  a delegation succeeds and the wrap-up stays; `DispatchGates.SuccessCancelsNothing` says that after a
  successful delegation the run wraps up exactly if it already did before.
* The wall clock is documented to end at base plus N grace periods (`runtime/budget.py:15-16`). A check that
  comes late uses one extension and passes, however late it is. `RunBudget.LateCheckPasses` is the
  example, `RunBudget.CeilingHoldsWhenSpent` says when the ceiling does hold.
* A range response that ends early is taken as complete (`runtime/hf_pull.py:176-178`), so a download without
  errors can contain zeros. `ParallelDownload.ShortResponsesPass` is the example, for every remote file that is
  split and has a byte that is not zero; `ParallelDownload.FileIsRemote` gives the exact condition.
* The streamed answer and the whole-string answer differ when the joined answer pieces form a new think
  block with text behind it (`runtime/model_client.py:829-831`). `StripThink.PathsDiffer` is the example,
  `StripThink.PathsAgreeExactly` the exact condition.
* The greedy matcher is documented as order-insensitive (`runtime/bfcl_match.py:121-123`), but overlapping
  acceptable values can make its verdict depend on the order of the calls: `BfclMatch.OverlapDefeatsGreedy` is
  an example. `BfclMatch.OrderFreeExactly` and `BfclMatch.GreedyCompleteExactly` say exactly when it does not:
  when some expectation can never be met, or each earlier expectation accepts only calls that a later one also
  accepts, or none of them.
* A negative ceiling is active for the budget check and unused for the pressure (`runtime/budget.py:77-140`);
  `RunBudget.Budget.PressureDecides` says exactly when the two agree.

## Model

| member | source | states |
|---|---|---|
| ThinkSplitter.ScanReassembles | runtime/model_client.py:649-689 | answer, reasoning and removed tags put back together are the input text: nothing is lost or invented |
| ThinkSplitter.SuffixPrefixLen | runtime/model_client.py:214-220 | the result is the longest suffix that is a proper prefix of the tag |
| ThinkSplitter.HeldBackSafe | runtime/model_client.py:214-220 | whatever text follows, no tag can begin before the held-back suffix |
| ThinkSplitter.FirstHitStable | runtime/model_client.py:654-668 | the earliest open tag found in the pending text stays the earliest, and the only one at its place, whatever follows |
| ThinkSplitter.ScanSkipsIdle | runtime/model_client.py:649-689 | a tag whose open marker occurs nowhere in the text makes no difference to the split |
| ThinkSplitter.Splitter.Consume | runtime/model_client.py:649-689 | after any chunk, what was handed over is the settled part of the scan of everything fed so far, and no complete tag is held back |
| ThinkSplitter.Splitter.Flush | runtime/model_client.py:820-828 | after the end of the stream, what was handed over is the scan of the whole text |
| StripThink.StreamTurn | runtime/model_client.py:626-689 | for any chunks the turn is the scan of the joined text: on `<think>` for qwen3, on the channel frame for gemma4, untouched for none, and for both on whichever of the two occurs alone; and its answer agrees with the whole-string path exactly when no joined block keeps text behind it |
| StripThink.FamilyTagsNonNested | runtime/model_client.py:57-67 | the tags of every family meet the condition that no open tag occurs inside another |
| StripThink.FamilyScans | runtime/model_client.py:57-67 | what each family splits on, told without the tag table |
| StripThink.TurnPathsAgree | runtime/model_client.py:829-831 | the exact agreement of the two paths family by family: always for none, and for qwen3, and for both without channel markers, if and only if no joined block keeps text behind it |
| StripThink.StripByFamily | runtime/model_client.py:179-211 | which texts the whole-string path returns unchanged, family by family, and which go through the channel substitutions |
| StripThink.NestedTagsBreakChunking | runtime/model_client.py:649-689 | without that condition a chunking can commit to a different split than the whole text |
| StripThink.StripLeavesNoOpen | runtime/model_client.py:179-211 | for qwen3 and both, no output of the whole-string path contains an open think tag |
| StripThink.StripTwice | runtime/model_client.py:179-211 | for qwen3 stripping twice is stripping once |
| StripThink.RemoveIsScan | runtime/model_client.py:207-211 | removing complete blocks keeps exactly the scanned answer and an unterminated tail |
| StripThink.PathsAgree | runtime/model_client.py:829-831 | streamed and whole-string answers are equal up to outer white space unless the joined pieces contain a complete block |
| StripThink.PathsAgreeExactly | runtime/model_client.py:829-831 | they are equal if and only if no block forms by joining or only white space is kept behind it |
| StripThink.PathsDiffer | runtime/model_client.py:829-831 | a raw text for which the two paths give different answers |
| RepeatWindow.CountTwo | runtime/dispatch_guards.py:1151 | the count reaches two exactly when two different recorded entries are related to the call |
| RepeatWindow.CountIsExact | runtime/dispatch_guards.py:1150-1151 | the count of a call is how often the same signature in the same mutation generation stands in the window |
| RepeatWindow.TwiceIsReworded | runtime/dispatch_guards.py:1198-1202 | two entries count as similar exactly when tool, generation and flags agree and the token overlap reaches the threshold |
| RepeatWindow.RecordKeepsSpaced | runtime/dispatch_guards.py:1151-1155 | recording only calls with fewer than two relatives in the window keeps related triples more than twenty records apart |
| RepeatWindow.NoTriple | runtime/dispatch_guards.py:1133-1155 | in any 21 consecutive recorded calls no signature and generation occurs three times |
| RepeatWindow.Jaccard | runtime/loop.py:3164-3167 | the similarity lies between 0 and 1 and times the size of the union is the size of the intersection |
| RepeatWindow.JaccardEnds | runtime/loop.py:3164-3167 | it is 0 exactly without a common token, 1 exactly for the same non-empty tokens, and symmetric |
| DispatchGates.Worst | runtime/dispatch_guards.py:783-787 | the reported error is one of the recorded ones and none is more frequent |
| DispatchGates.WorstIsEarliest | runtime/dispatch_guards.py:783-784 | among equally frequent errors the earliest is reported |
| DispatchGates.RunGates.AutoDelegate | runtime/dispatch_guards.py:169-313 | when the delegation is executed, that it is latched even on failure, what a success changes, and the j-space openers it supplies |
| DispatchGates.RunGates.WrapUpOrSalvage | runtime/dispatch_guards.py:315-320 | wrap-up begins unless the delegation runs and succeeds |
| DispatchGates.RunGates.StallGate | runtime/dispatch_guards.py:694-762 | when the gate refuses, and the whole escalation state after a refusal |
| DispatchGates.RunGates.RepeatGate | runtime/dispatch_guards.py:765-813 | likewise for repeated errors, with the delegation only for errors that name the specialist |
| DispatchGates.RunGates.JspaceGate | runtime/dispatch_guards.py:816-906 | likewise for the badge-and-plan gate, with its one-way latch |
| DispatchGates.RunGates.DelegatePointingGates | runtime/dispatch_guards.py:909-1032 | the strength, dispatch-mode and delegate-hard gates in order: which refuses, and the state after it |
| DispatchGates.RunGates.DuplicateGate | runtime/dispatch_guards.py:1133-1173 | refuses exactly a call that is not poll-safe and whose signature stands at least twice in the window with the current mutation generation; records every other such call, and the window keeps the last twenty |
| DispatchGates.RunGates.NearDuplicateGate | runtime/dispatch_guards.py:1176-1221 | refuses exactly a query with two earlier ones of the same tool, generation and flags in the window whose tokens overlap by at least the threshold, and records every other |
| DispatchGates.RunGates.MutationClearsDuplicates | runtime/dispatch_guards.py:1131-1221 | a window without an entry of the current mutation generation makes neither duplicate gate refuse |
| DispatchGates.RunGates.PassedCallsAreAllowed | runtime/dispatch_guards.py:694-1032 | what a call that passes every gate cannot be while the stall, badge, dispatch-mode or delegate-hard gate is armed |
| DispatchGates.RunGates.RefusalsHaveCause | runtime/dispatch_guards.py:694-1032 | and which names, writes and counts a refusal by each of these gates implies |
| DispatchGates.DelegationIsDue | runtime/dispatch_guards.py:169-320 | a refusal executes the delegation exactly when the streak reaches its limit, or a duplicate refusal the cap, and a specialist can still be asked |
| DispatchGates.RefusalEscalates | runtime/dispatch_guards.py:704-813 | every refusal keeps the escalation invariant: past the cap the run wraps up, never without a cause, with at most one delegation |
| DispatchGates.CapIsExact | runtime/dispatch_guards.py:315-320 | at the refusal that reaches the cap the run goes on if and only if the delegation was executed and succeeded there |
| DispatchGates.SuccessCancelsNothing | runtime/dispatch_guards.py:169-320 | after a successful delegation the run wraps up if and only if it already did before the refusal |
| DispatchGates.WrapUpOutlivesDelegation | runtime/dispatch_guards.py:830-945 | a run that ends both delegated and wrapping up |
| DispatchGates.RunGates.DelegatedDisarms | runtime/dispatch_guards.py:909-1032 | after a delegation none of the three specialist gates is the one that refuses |
| DispatchGates.RunGates.Dispatch | runtime/loop.py:1583-1598 | the first gate in pipeline order settles the call, with its effect and the recorded windows |
| DispatchGates.Run | runtime/dispatch_guards.py:1295-1313 | over every run, one outcome per requested call: wrap-up after at most G+1 counted refusals, no wrap-up without a cause, at most one delegation, no refusal by a specialist gate after a delegation, and both windows spaced |
| FinalGuards.ContentHitIsWellFormed | runtime/final_guards.py:394-398 | the first objection comes from a content guard, or there is none, exactly when no armed shape guard objects |
| FinalGuards.IllFormedMeans | runtime/final_guards.py:139-250 | an answer is ill formed exactly when it is blank, cut off or leaked markup and the guard for that can still act |
| FinalGuards.ChainIsOrdered | runtime/final_guards.py:380-398 | every guard has one place, the four shape guards first, and the pin follows the requirements guard |
| FinalGuards.Finisher.FirstObjection | runtime/final_guards.py:426-441 | the pass stops at the first armed guard that objects, and the candidate is pinned between requirements and deliverable even when that guard is off |
| FinalGuards.Finisher.ApplyFinalGuards | runtime/final_guards.py:401-483 | which guard fires, when the bounce cap suppresses it, what the run would answer, and which candidate is remembered |
| FinalGuards.Finisher.CheckAnswer | runtime/loop.py:1510-1566 | the verifier branch: attempts and the verdict, and giving up exactly when the checks are used up or the same failure came too often in a row |
| FinalGuards.StreakIs | runtime/loop.py:1531-1538 | the no-progress count reaches n exactly when the last n failures have the same signature |
| FinalGuards.Finisher.AnswerTurn | runtime/loop.py:1499-1570 | guards and verifier together: which guard nudges, and that an answer that gets through is accepted exactly on a passed verdict, given up exactly on a hopeless failed one with the report appended, and otherwise sent back |
| FinalGuards.Finisher.VerdictDecides | runtime/loop.py:1510-1566 | how a text turn can end, told by the nudge, the verdict and the failures so far |
| FinalGuards.Finisher.Step | runtime/loop.py:1438-1570 | one pass of the loop: a text turn obeys its verdict as above; an accepted run answers the candidate, or, exactly when the cap silenced a shape guard and one is remembered, the remembered candidate |
| FinalGuards.Run | runtime/loop.py:1438-1570 | over every script, with the text turns and the turns after wrap-up counted on the part of it that was played: each guard fires at most once, at most 9 + max(1, max_checks) text turns, at most max_iterations model turns, and at most one turn more than the text turns after wrap-up began; a verified run is accepted only on a passed verdict of its last turn and given up only on a failed hopeless one |
| RunBudget.Budget.Check | runtime/budget.py:107-140 | which ceiling stops the run, in order, and that a spent clock first uses an extension |
| RunBudget.Budget.AddUsage | runtime/budget.py:94-105 | with non-negative prices and no more cached than sent, no report lowers the cost, the tokens charged or, at any time, the pressure; the counters and the cost are exact |
| RunBudget.TokensGrow | runtime/budget.py:62-75 | a further report never lowers the tokens charged when no more of its prompt was cached than was sent |
| RunBudget.TokensAre | runtime/budget.py:62-75 | cached prompt tokens count for their weight, all others in full, rounded down once |
| RunBudget.FractionIs | runtime/budget.py:77-87 | a fraction times its ceiling is what was used, and 0 without a ceiling |
| RunBudget.PriceIs | runtime/budget.py:94-105 | a report costs its uncached prompt and completion in full and its cached prompt a tenth, per million tokens |
| RunBudget.Budget.Pressure | runtime/budget.py:77-87 | the highest of the four fractions and the first dimension that reaches it |
| RunBudget.Budget.PressureDecides | runtime/budget.py:77-140 | without negative ceilings a check lets the run go on and leaves the budget alone if and only if the pressure is at most 1; with one no check does, and the two agree if and only if the pressure is above 1 |
| RunBudget.CeilingHoldsWhenSpent | runtime/budget.py:10-17 | base plus all grace bounds every check the clock lets through if and only if no extension is left |
| RunBudget.LateCheckPasses | runtime/budget.py:10-17 | a check arbitrarily far past the documented ceiling passes |
| RunBudget.Drive | runtime/budget.py:89-140 | over every script up to the tick that stops it: deadline is base plus used grace with used at most the allowed extensions, as many ticks pass late as extensions were used, passed ticks are at most the iteration limit; every report is charged, and what stops the run is a ceiling that is exceeded |
| Overlay.CleanIsValid | runtime/brain_overlays.py:58-88 | whatever passes validation is canonical and within the limits |
| Overlay.CleanIs | runtime/brain_overlays.py:58-88 | exactly which raw overlays are accepted, and that names and the prompt are stored stripped with the last pair of a name winning |
| Overlay.CleanCanonical | runtime/brain_overlays.py:58-88 | re-validating a canonical overlay only checks sizes and gives it back |
| Overlay.CleanFixpoint | runtime/brain_overlays.py:58-88 | the valid snapshots are exactly the fixpoints of validation |
| Overlay.MergeValidates | runtime/brain_overlays.py:115-129 | a merge is the layering of the two overlays followed by validation |
| Overlay.MergeTakes | runtime/brain_overlays.py:115-129 | of every tool and config key a merge holds the newer value if there is one, of the prompt and every skill the older text with the newer behind a blank line |
| Overlay.MergeFits | runtime/brain_overlays.py:115-129 | a merge goes through exactly when joined prompt, joined skills and the numbers of names stay within the limits |
| Overlay.MergeAssoc | runtime/brain_overlays.py:115-129 | merge is associative, one bracketing within the caps exactly when the other is |
| Overlay.MergeUnit | runtime/brain_overlays.py:53-55 | the empty overlay is a unit on both sides |
| Overlay.PartsFit | runtime/brain_overlays.py:115-129 | if a layering fits the caps, so does each part |
| OverlayStore.TransactionKeepsInv | runtime/brain_overlays.py:246-324 | every transaction keeps versions 1..n, one active newest row, base one below, unique proposals, and only appends |
| OverlayStore.TransactionKeepsValid | runtime/brain_overlays.py:246-324 | only valid snapshots are stored |
| OverlayStore.Store.Active | runtime/brain_overlays.py:217-223 | the active snapshot is the newest version, or the empty baseline |
| OverlayStore.Store.ApplyChanges | runtime/brain_overlays.py:246-288 | apply is the atomic transaction: known proposal, stale base, rejected merge, or a new version, which holds the accepted changes on top of the snapshot before it |
| OverlayStore.Store.RollbackTo | runtime/brain_overlays.py:290-324 | rollback appends a copy of the source snapshot, or fails for an unknown version |
| OverlayStore.RunKeepsInv | runtime/brain_overlays.py:246-324 | the table invariant holds after every step of every interleaving |
| OverlayStore.RunAppendOnly | runtime/brain_overlays.py:271-288 | stored payloads, versions, parents and proposal ids never change |
| OverlayStore.OneWinnerPerBase | runtime/brain_overlays.py:266-269 | after one apply on a base version has been stored no other on that base is; it is stale and leaves the table alone |
| OverlayStore.FreshOnCurrentWins | runtime/brain_overlays.py:262-288 | a valid new apply on the current version is stored, with exactly the merged snapshot |
| OverlayStore.AcceptedTakesEffect | runtime/brain_overlays.py:262-288 | after every stored apply the active snapshot is the one before it with the accepted changes on top |
| OverlayStore.RetryIsNoOp | runtime/brain_overlays.py:256-261 | applying a stored proposal again changes nothing and answers with its row |
| OverlayStore.RunReplays | runtime/brain_overlays.py:246-324 | every version's snapshot is the replay of the accepted events up to it |
| OverlayStore.ActiveIsReplay | runtime/brain_overlays.py:290-324 | the active snapshot is the source of the latest rollback merged with everything accepted since, as one merge |
| OverlayStore.ActiveHolds | runtime/brain_overlays.py:115-324 | at every point of every run a tool or config key has the value of the last change accepted since the latest rollback that names it, or else that of the restored snapshot; prompt and skills are the restored text and all accepted since |
| OverlayStore.LatestSourceIs | runtime/brain_overlays.py:290-324 | the rollback that counts is the last one, and every event after it is an accepted change |
| Json.DumpsShowsKey | runtime/context_compaction.py:73-74 | a printed dictionary shows every one of its keys in quotes with its printed value behind it |
| Json.EscapeReadsBack | runtime/context_compaction.py:73-74 | a printed text reads back as the text |
| Json.DecimalReads | runtime/context_compaction.py:73-74 | a printed number reads back as the number |
| Json.PrintedList | runtime/context_compaction.py:73-74 | lists and literals are printed with `json.dumps` separators |
| Json.PrintedDict | runtime/context_compaction.py:73-74 | and so are dictionaries, in insertion order |
| Transcript.StubIsMarked | runtime/context_compaction.py:116-166 | every replacement text carries the marker that excludes it from later passes |
| Transcript.HeadTailKeepsEnds | runtime/context_compaction.py:116-121 | pruning keeps the first 500 and the last 1000 characters |
| Transcript.CodeRunKeepsEvidence | runtime/context_compaction.py:124-145 | pruning a code.run payload keeps every field but the middle of its two streams |
| Transcript.CodeRunPrunes | runtime/context_compaction.py:124-145 | both streams are pruned when too long and otherwise kept, and the command is added when the result names none |
| Transcript.StubForms | runtime/context_compaction.py:148-212 | which form a long result gets, by tool and decoded payload |
| Transcript.SucceededIs | runtime/context_compaction.py:52-56 | success is the status of a decodable dictionary, or else not beginning like an error |
| Transcript.GenericTells | runtime/context_compaction.py:203-209 | the note for an ordinary long result shows its first 300 characters in one line and its status |
| Transcript.LogStubTells | runtime/context_compaction.py:148-166 | the log stub shows tool, status and both ends |
| Transcript.LogStubNames | runtime/context_compaction.py:148-166 | and the command of the call and the exit code of the result |
| Transcript.StaleTells | runtime/context_compaction.py:104-110 | the stale-read note shows the file and which of the two reasons holds |
| Transcript.ElidedBlocks | runtime/context_compaction.py:214-227 | exactly the image blocks are replaced, by a text block |
| Compaction.ParseCalls | runtime/context_compaction.py:22-40 | the loop over messages and calls gives the table that LastCallWins describes |
| Compaction.LastCallWins | runtime/context_compaction.py:22-40 | an id has arguments if and only if some call with it parses, and they are those of the last such call |
| Compaction.Collect | runtime/context_compaction.py:79-94 | exactly the successful unmarked reads and writes, in order, with their keys and paths |
| Compaction.DedupeReads | runtime/context_compaction.py:77-113 | exactly the unprotected superseded reads are replaced, with exact change and character counts |
| Compaction.StubLong | runtime/context_compaction.py:193-212 | exactly the unprotected unmarked results over the limit are replaced, with exact counts |
| Compaction.ElideOldImages | runtime/context_compaction.py:214-227 | every image message but the newest loses its images, with the JSON length accounted |
| Compaction.ChangedOnce | runtime/context_compaction.py:169-229 | no message is changed by more than one of the three passes |
| Compaction.CompactMessages | runtime/context_compaction.py:169-229 | the transcript after the pass, `compacted` as the number of changed messages, `saved_chars` as total size before minus after |
| CompactionLaws.Frame | runtime/context_compaction.py:169-229 | count, order and every field but content are kept; protected results and unrelated messages are untouched |
| CompactionLaws.ProtectedAre | runtime/context_compaction.py:184-187 | what is protected: the last `keep_last` tool results (Python slicing) and the pinned positions |
| CompactionLaws.StaleExactlyWhenSuperseded | runtime/context_compaction.py:96-113 | the pass that compares keys: a read is marked if and only if it is unprotected and a later successful read has its key or a later successful write its file |
| CompactionLaws.StaleByArguments | runtime/context_compaction.py:52-113 | the same told by the calls' arguments: a later successful read of the same normalised path with equal start line (default 1), end line (default null) and byte cap (default 100000), or a later successful write of the path; and the note names which |
| CompactionLaws.OtherSlicesStay | runtime/context_compaction.py:64-70 | reads of a file that end at another line never replace a read |
| CompactionLaws.StubbedExactly | runtime/context_compaction.py:193-212 | a result is shortened if and only if it is an unprotected tool result over the limit without the marker |
| CompactionLaws.NoNewStale | runtime/context_compaction.py:77-103 | replacing texts by marked ones makes no read newly stale |
| CompactionLaws.ImagePassSettles | runtime/context_compaction.py:214-227 | the image pass is idempotent |
| CompactionLaws.NewestImageStays | runtime/context_compaction.py:214-227 | after the image pass exactly the newest message with an image holds one, unchanged |
| CompactionLaws.Idempotent | runtime/context_compaction.py:169-229 | a second pass changes no message |
| CompactionLaws.CompactTwice | runtime/context_compaction.py:169-229 | a second pass reports zero for every counter |
| EvalStats.RowSumTotal | runtime/eval_stats.py:43 | a whole row of binomial coefficients sums to 2^n |
| EvalStats.CombSymmetric | runtime/eval_stats.py:43 | binomial symmetry |
| EvalStats.CombIsFactorials | runtime/eval_stats.py:43 | the coefficient is n! over k! times (n - k)! |
| EvalStats.ClampBites | runtime/eval_stats.py:43-44 | the doubled tail exceeds 1 if and only if b = c |
| EvalStats.McNemarSymmetric | runtime/eval_stats.py:32-44 | the p-value is symmetric in b and c |
| EvalStats.McNemarIsTwoSided | runtime/eval_stats.py:32-44 | the p-value is the probability of a split at least as uneven as the observed one |
| EvalStats.McNemarBounds | runtime/eval_stats.py:32-44 | it lies in (0, 1] and falls as the split grows more uneven |
| EvalStats.WilsonInvertsScore | runtime/eval_stats.py:24-29 | the interval is exactly the set of rates the score test does not reject |
| EvalStats.WilsonBrackets | runtime/eval_stats.py:14-29 | the bounds lie in [0, 1] before the clamps and bracket the observed rate |
| ParallelDownload.RangesPartition | runtime/hf_pull.py:185-220 | at least two ranges, no more than streams, each at least 32 MiB, consecutive from 0 to the total |
| ParallelDownload.StreamsAreMaximal | runtime/hf_pull.py:185-187 | as many streams as asked for unless one more would make ranges smaller than 32 MiB; split exactly when that leaves two |
| ParallelDownload.RangesEven | runtime/hf_pull.py:217-220 | no two ranges differ by more than one byte in size |
| ParallelDownload.OwnerExists | runtime/hf_pull.py:217-220 | every byte lies in some range |
| ParallelDownload.OwnerUnique | runtime/hf_pull.py:217-220 | no byte lies in two ranges |
| ParallelDownload.Download.TakeChunk | runtime/hf_pull.py:168-180 | a chunk is written at its offset and leaves every other stream's bytes alone |
| ParallelDownload.Download.AttemptFails | runtime/hf_pull.py:205-215 | one restart per range; a second failure or one while stopping is recorded and stops the siblings |
| ParallelDownload.WriteShows | runtime/hf_pull.py:168-180 | after a write the file shows remote bytes below every stream's high mark and zeros above |
| ParallelDownload.FileIsRemote | runtime/hf_pull.py:185-229 | the finished file equals the remote one if and only if everything not delivered is zero there |
| ParallelDownload.ShortResponsesPass | runtime/hf_pull.py:168-180 | responses that end at once raise no error and leave a file that differs from the remote one |
| ParallelDownload.DeliveredIsRemote | runtime/hf_pull.py:185-229 | full delivery gives the remote file, and the progress counter its size plus the bytes of restarted attempts |
| ParallelDownload.ProgressIsBounded | runtime/hf_pull.py:195-215 | at any time the bytes fetched in vain are at most the file's size, and the progress counter at most twice that |
| ParallelDownload.Drive | runtime/hf_pull.py:185-229 | the same over every interleaving of the workers' steps, with any failures and a cancel at any time; workers, errors and cancel are exactly those of playing the script step by step |
| EventBus.Queue.Offer | runtime/events.py:37-43 | a full queue drops its oldest event; the queue is a suffix of everything offered to it |
| EventBus.EventBus.Publish | runtime/events.py:29-35 | the buffer is the last `buffer_size` events since the last forget, and every subscriber is offered the event |
| EventBus.EventBus.Subscribe | runtime/events.py:45-52 | a new queue is offered exactly the buffered events after the given number |
| EventBus.EventBus.Forget | runtime/events.py:57-60 | the run's buffer and subscribers are gone, other runs are untouched |
| EventBus.ReplayIsExact | runtime/events.py:45-52 | with consecutive numbers the replay is exactly what was missed if and only if the buffer reaches back far enough and the queue holds it |
| EventBus.Reconnect | runtime/loop.py:1067-1083 | a returning client sees exactly the events after its last number, from before and after its return |
| ProcessTree.ClosedHoldsReached | runtime/model_usage.py:44-54 | a closed set that holds the root holds everything reachable from it |
| ProcessTree.BuildChildren | runtime/model_usage.py:30-43 | the table lists exactly the children of each process |
| ProcessTree.ProcessTree | runtime/model_usage.py:24-54 | for every parent map, cyclic ones included: starts with the root, no repeats, parents first, exactly the reachable processes |
| BfclMatch.CallMatchesAccepts | runtime/bfcl_match.py:93-116 | the call matcher reports no error exactly when name, parameters and values are acceptable |
| BfclMatch.CallErrorIs | runtime/bfcl_match.py:93-116 | which error is reported: the first unknown parameter, else the first missing or wrong one |
| BfclMatch.ScalarsMatch | runtime/bfcl_match.py:54-90 | numbers match by value across int and float, text by its key, bool and null only themselves |
| BfclMatch.ListsMatch | runtime/bfcl_match.py:54-90 | lists match member by member and only at equal length |
| BfclMatch.DictsMatch | runtime/bfcl_match.py:54-90 | a dictionary matches when each listed key has a value that will do or may be left out |
| BfclMatch.OneOfMeans | runtime/bfcl_match.py:54-116 | a value will do when one of the listed values other than the optional marker matches, or none is listed |
| BfclMatch.GreedyIsSound | runtime/bfcl_match.py:136-157 | a pass implies a one-to-one assignment in which every pair matches |
| BfclMatch.Exchange | runtime/bfcl_match.py:136-157 | when later expectations contain or exclude the earlier ones the greedy choice never loses an assignment |
| BfclMatch.GreedyIsComplete | runtime/bfcl_match.py:136-157 | then the greedy pass succeeds whenever an assignment exists; equal-or-disjoint expectations are a special case |
| BfclMatch.VerdictIgnoresOrder | runtime/bfcl_match.py:119-157 | then the verdict is the existence of an assignment and does not depend on call order |
| BfclMatch.CrossingDefeatsGreedy | runtime/bfcl_match.py:136-157 | an earlier expectation that accepts part of a later one and something else gives calls that can be assigned but do not pass |
| BfclMatch.GreedyCompleteExactly | runtime/bfcl_match.py:136-157 | greedy finds every assignment if and only if some expectation is unsatisfiable or each earlier one is contained in or apart from each later one |
| BfclMatch.OrderFreeExactly | runtime/bfcl_match.py:119-157 | the verdict never depends on call order under exactly the same condition |
| BfclMatch.OverlapDefeatsGreedy | runtime/bfcl_match.py:119-157 | a concrete overlap for which the order of the calls decides |
| BfclMatch.MatchCalls | runtime/bfcl_match.py:119-157 | the reported failures are empty exactly when the counts agree and the greedy pass succeeds; and each failure is the error of the first call of its name, or that it never fired |
| EvalBudget.FittedCallIsFunded | runtime/eval_runner.py:664-683 | a call with a fitted limit and a bill within its estimate costs at most what was left |
| EvalBudget.FitIsLargest | runtime/eval_runner.py:664-683 | the fitted limit is the largest one whose bill the remaining money covers |
| EvalBudget.CostIs | tools/eval/compare.py:50-57 | prices are per million tokens and a cached prompt token costs a tenth |
| EvalBudget.CompletionIsFunded | runtime/eval_runner.py:693-754 | whatever the proxy answers, a completion over both aliases costs at most what was left |
| EvalBudget.ModelText | runtime/eval_runner.py:707-754 | the answer of the alias or else of the local specialist, each fitted anew, and the requests sent |
| EvalBudget.GuardedIsFunded | runtime/eval_runner.py:757-775 | a guarded call charges exactly what it reports, and nothing once the budget is empty |
| EvalBudget.ChainIsFunded | runtime/eval_runner.py:757-775 | any sequence of guarded calls spends exactly what the budget loses and never more than it held |
| EvalBudget.AssignedIsCharged | runtime/eval_runner.py:2343 | setting the budget to what the cap leaves is charging the agent turn to it |
| EvalBudget.AdaptiveIsFunded | runtime/eval_runner.py:2338-2366 | with the budget set to what the cap leaves after every agent turn, the driver's calls never spend more than the cap leaves, and the budget always is what the cap leaves |
| EvalBudget.RunChain | runtime/harness_experiments.py:444-448 | a caller's loop of guarded calls on one budget spends what the chain spends, within the budget |
| EvalBudget.GuardedModelText | runtime/eval_runner.py:757-775 | preflight, completion and charge on the shared budget |
| EvalBudget.JudgeIsFunded | runtime/eval_runner.py:1588-1658 | the chain of up to four guarded calls reports what it spends and spends at most its starting budget |
| EvalBudget.JudgeIsChain | runtime/eval_runner.py:1588-1658 | the judge's calls are such a chain, of one to four requests |
| EvalBudget.Judge | runtime/eval_runner.py:1588-1658 | the judge makes exactly the calls of that chain, in order |
| EvalBudget.RetryInvalidOnce | runtime/eval_runner.py:539-586 | which rows are replaced, each by its one retry: those that want one, whose retry came back, while the cap is not reached; and the extra spend is what these retries cost |
| EvalBudget.RunSuite | runtime/eval_runner.py:2721-2793 | one row per case in order: which cases run, when the suite is cancelled, which rows retries replace; recorded spend is the cost of the first runs plus that of the kept retries |
| EvalBudget.RowByOutcome | runtime/eval_runner.py:2721-2793 | what the first pass makes of each outcome |
| EvalBudget.KeptByOutcomes | runtime/eval_runner.py:539-586 | exactly which cases are run again and kept, told by the outcomes |
| EvalBudget.SuiteWithinOne | runtime/eval_runner.py:2721-2793 | recorded spend passes the cap by less than one case that was run, so by less than any amount no case exceeds |
| EvalBudget.SkippedForCause | runtime/eval_runner.py:2721-2793 | in a suite that was not cancelled a skipped row was skipped by a gate of its own case, or the cap had been reached |
| EvalBudget.NothingAfterStop | runtime/eval_runner.py:2721-2730 | after a stop request no case is run and none is retried |

## Left out

- FinalGuards.Finisher.CheckAnswer: does not model the wording of the give-up note or the trimming before it, and takes the failure signature as given.
- FinalGuards: the content guards' own conditions and the markup pattern are inputs; emitted events and appended messages are not modelled.
- DispatchGates.RunGates.AutoDelegate: does not model the brief, the report message, the delegate's verification marker, or a refused salvage plan; the wall clock, the route and the result are inputs.
- DispatchGates.RunGates.Observe: everything between two calls is a free input, except that a delegation once seen is never forgotten and the mutation generation never falls, as in `runtime/turn_guards.py:709` and `runtime/loop.py:803`.
- DispatchGates: the malformed, admin, allowlist, phantom, privacy and confirmation gates are two input bits; the two argument-rewriting gates act before the signature that a call carries here; `stall_turns` is not kept.
- RepeatWindow.Jaccard: float rounding of the ratio is not modelled.
- EvalStats.Wilson: does not model that a real square root exists; the root is a parameter with its defining property, and floats are exact reals.
- RunBudget: elapsed times are inputs, floats are exact reals, and unknown models are usage reports without rates.
- ThinkSplitter: separate reasoning deltas of the protocol, tool-call deltas, and the network stream are not modelled.
- StripThink.StripThinkText: the gemma4 regular expressions are one arbitrary function, so nothing is claimed about what they remove.
- Overlay: payload JSON, hashes, timestamps and experiment ids are not modelled; a configuration value is an exact number; applying a configuration overlay to a configuration is not modelled.
- OverlayStore: SQLite is one table with atomic transactions.
- Transcript: JSON decoding and path normalisation are arbitrary functions; numbers in slices compare as written, so Python's equality of 1, 1.0 and True is not modelled; a tool call carries its parsed arguments.
- Compaction.CompactMessages: requires tool results to carry text, as the loop always makes them (`runtime/loop.py:917-925`).
- ParallelDownload: a response is assumed to carry the bytes of its range; the size probe, the single-stream path, the final rename and the removal after an error are not modelled.
- EventBus: blocking reads and the event loop are not modelled; a queue is read by one client.
- ProcessTree: the process file system is a list of entries or a failure.
- BfclMatch: string standardisation is an arbitrary function, and failures carry data instead of sentences.
- EvalBudget.ModelText: a request that fails is assumed to be free, prices are linear, and a bill stays within the estimate.
- EvalBudget: transcripts, verdict parsing beyond whether content parses, progress callbacks and the ledger are not modelled.
- HTTP, retries with sleeps, prompts, configuration loading, connectors and the web routes are not part of this model.
