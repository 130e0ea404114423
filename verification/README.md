# Verification of the agent runtime

A Dafny model of the parts of the agent runtime in which something must hold
over every run, with proofs. `dafny verify dfyconfig.toml` checks everything.

| file | what it models |
|---|---|
| `SessionLog`, `ToolPairs`, `Compaction` | the append-only session log, its live summary chain and verbatim tail, the seam between them, compaction and folding as log-writing methods |
| `Threads`, `Heads` | what the rebuilt thread and its summary head say, read off the rows of the log |
| `Tiling`, `ChainRuns` | which new summary keeps the live ranges tiled; runs of logging, compacting and folding in which anything may be logged or compacted while a summarizer is waited for |
| `Sources`, `Overlap` | what each summary stands for; the overlapping runs that go wrong |
| `Convergence` | when compaction stops |
| `FairShare`, `Markers`, `History` | integer max-min fair allocation, fair truncation with its markers, the history sent to a provider |
| `TrimLoop`, `TrimPromises` | the three-phase trimming of the in-flight tool loop, in place over message objects, and what it promises of each message |
| `EchoGuard` | the bounded map of sent identities as an exact TTL and LRU cache |
| `Delivery`, `TurnCode` | the crash-safe terminal reply: ledger, recovery claim, inbox, joined handoffs, crashes between any two steps, re-sending at start-up; and the code of one turn as steps of that machine |
| `AnswerOnce`, `AnswerExact`, `AnswerRuns` | when a message is answered at most once, the exact guards, and the runs without them |
| `Attempts` | the attempt file and when a message is given up |
| `Queue` | the waiting line, the pick of the next task, reordering |
| `Scheduler` | run generations, escapes, zombies, the output guard |
| `Obligations` | the bounded redrive of unanswered messages |
| `StreamFile` | the stream file: appending writer, polling reader, self-healing frames |
| `Terminals` | terminal files with an in-place header, the remembered unfinished input line |
| `Blocks` | the view validator against a flat, declarative predicate |
| `PdfText`, `PageText` | PDF strings (sections 7.3.4.2 and 7.3.4.3 of ISO 32000-1:2008), the scanner of content streams, and what tokens and operators mean for the text of a page |

The pattern is the same everywhere. A pure function or a step relation says what
an operation does to a value; a method or class written like the original code
is proved to do exactly that; and lemmas, mostly over all runs, say what follows.
Completions, fold vetoes, summaries, decoding, clocks and thread schedules are
arbitrary inputs.

## Where the code and its documentation differ

- Overlapping compactions of one thread can represent an entry twice. Between the
  reads of `maybe_compact` and its `log_turn` (`agent/compaction.py:465-511`) a
  provider is waited for, and nothing looks at the chain again before the row is
  written. `Overlap.OverlapBreaksTheTiling` is a run; `ChainRuns.CommitKeepsIff` is
  the exact condition on the row about to be written, and `ChainRuns.TiledIffAllFit`
  the same over whole runs. Lines may be logged meanwhile without harm, and
  compactions of one peer that do not overlap always meet the condition
  (`ChainRuns.UndisturbedRunFits`).
- What is summarized need not be what the written range holds. The thread, the seam and
  the clock are read one after the other (`agent/compaction.py:471-487`).
  `Sources.DraftIsExactIff` is the exact condition: no entry read lies between the seams
  that the two reads saw and, when no turn is to stay verbatim, nothing was said between
  them past the second seam; `Sources.RunDraftIsExactIff` says it of every run. In
  `Overlap.LineBetweenReadsIsLost` a line is inside the range without having been
  summarized; in `Overlap.SameTalkTwice` a summary written between the reads moves the
  seam, and the same talk stands in two summary texts though the ranges tile.
- A room handoff can be answered twice. Joining a handoff to a running turn
  (`agent/runtime.py:1583-1601`) does not look at the handoff's own ledger row, so
  one whose reply went out just before a crash can be joined to the next turn and
  answered again. `AnswerRuns.HandoffCanBeAnsweredTwice` is a run that the dispatch
  order and the joining of everything queued allow, and
  `AnswerExact.JoinIsSafeIffUnsettled` the exact condition in terms
  of inbox, ledger and turn.
- A message can even get two replies of its own. It is joined to another turn, so
  that turn's recovery claim lists it (`agent/runtime.py:1601`); a crash; its own turn
  runs first, settles, and its rows are pruned (`agent/runtime.py:3827-3830`) while the
  other claim still stands; a second crash, and the sweep re-sends it
  (`agent/recovery.py:157-181`, `agent/recovery.py:209-223`) with nothing on record.
  `AnswerRuns.OwnReplyCanRepeat` is the run and `AnswerExact.PruneIsSafeIffSpent` the
  exact condition, which counts a claim only while its budget lasts
  (`harness/statestore.py:607-622`). A message that is never joined to another turn is safe
  (`AnswerOnce.OwnReplyAtMostOnce`), and looking at the row before joining together
  with looking for other claims with budget left before pruning makes every message safe
  (`AnswerOnce.GuardedAnsweredOnce`); the two runs above each keep one of the two
  guards, so neither alone is enough.
- The notice for a message that is given up says that it crashed the bot twice
  (`agent/runtime.py:3534`). One crash can be enough: a deferral writes a count of one
  (`agent/runtime.py:3800`). `Attempts.GivenUpIff` is the exact condition,
  `Attempts.OneCrashCanSuffice` an input.
- `agent/history.py:511-512` says omission markers can never outgrow the budget. They can
  when the budget is below 25 tokens: the window then still keeps one turn, and
  `History.TinyBudgetFits` says exactly when its marker fits; `History.TinyMarkerOutgrows`
  is an input. From 25 tokens on, `History.TruncationFits` holds.
- Trimming is not always idempotent: a replayed tool result that carries pictures
  can be grown by the placeholder of the second phase and is then replaced again
  by the first phase of a second pass. `TrimLoop.TrimIdempotentExactly` gives the
  exact condition, `TrimLoop.TrimIdempotentWithoutRegrowth` the half that can be
  checked before the first pass, `TrimLoop.TrimNotAlwaysIdempotent` an input, and
  `TrimLoop.TrimIdempotentOnTextReplay` shows that text-only replay, which is what
  the runtime replays, is never affected.
- `agent/obligations.py:4-6` says that any visible reply clears the obligation. The
  reply to a message that more than nineteen later ones have pushed out of the
  remembered ids does not: `Obligations.ReplyClosesIffRemembered` is the exact condition,
  `Obligations.ForgottenReplyLeavesOpen` an input.
- A compaction call below the token and turn limits returns before it looks at
  the chain, so it leaves an over-long chain alone. `Convergence.CapHoldsIff` says exactly
  when the cap holds after a call, `Convergence.LongChainStays` is an input.

## Model

| member | source | states |
|---|---|---|
| ChainRuns.EveryEntryExactlyOnce | agent/history.py:584-688 | in every log left by a run of logging, compacting and folding whose summaries fitted when written, whatever else was written while they waited, each chat entry of each peer lies in exactly one live range and not in the verbatim tail, or in none and in the tail |
| ChainRuns.TiledIffAllFit | agent/compaction.py:433-515 | over every run, overlapping or not, the live ranges of all peers stay tiled throughout if and only if each summary's range fitted the chain at the moment of writing |
| ChainRuns.CommitKeepsIff | agent/compaction.py:499-511 | one written summary keeps the tiling if and only if its range is not empty, starts at a boundary of the live chain and ends at one or past the seam |
| Tiling.CommitTilesIff | agent/history.py:584-612 | superseding contained ranges and sorting the rest gives a tiling again if and only if the new range fitted |
| ChainRuns.UndisturbedRunFits | agent/compaction.py:471-515 | if no other compaction or fold of the same peer is written between one's reads and its writing, every summary of the run fits, whatever lines are logged meanwhile |
| Sources.DraftIsExactIff | agent/compaction.py:471-511 | however long the provider takes, a compaction summarizes exactly what the log holds in the written range if and only if no entry read lies between the seams of its two reads and, when nothing stays verbatim, nothing was said between them past the second seam |
| Sources.RunDraftIsExactIff | agent/compaction.py:471-511 | the same of every compaction of every run, against the log that the run leaves |
| Sources.EverySummarySourced | agent/compaction.py:395-515 | in a fitting run whose compactions all read consistently, every summary was written from all the talk in its own range or from older summaries that tile it |
| Overlap.OverlapBreaksTheTiling | agent/compaction.py:465-511 | a run of five lines and two overlapping compactions after which one line is represented twice |
| Overlap.LineBetweenReadsIsLost | agent/compaction.py:471-487 | a run in which a line logged between the thread read and the clock read falls into the range unsummarized |
| Overlap.SameTalkTwice | agent/compaction.py:471-511 | for any four clock readings, a run in which two tiling summaries were both written from the same one line |
| Overlap.CallIsARun | agent/compaction.py:433-515 | a call that nothing interrupts is at most two events of such a run and leaves what the store's method computes |
| ChainRuns.PartitionIsExact | agent/compaction.py:471-490 | the turns before the split are exactly the talk from the old seam to the new one, and the turns after it exactly the old suffix |
| ChainRuns.CompactionExtends | agent/compaction.py:485-511 | a range that starts where the live chain ends is appended to it and changes no other, whatever was logged since it was read |
| ChainRuns.FoldReplaces | agent/compaction.py:407-429 | a fold replaces exactly the oldest ranges by their union and leaves the seam where it was |
| Sources.RangeIsFrozen | agent/compaction.py:453-460 | rows logged after a range was closed never add to the talk inside it |
| Sources.TalkSummaryStaysTrue | agent/compaction.py:491-511 | a summary written from talk is the summary of what every later log holds for its range |
| SessionLog.TilesCoverOnce | agent/history.py:584-612 | a tiling chain covers each time below its seam once and each later time not at all |
| SessionLog.SurvivorsAppend | agent/history.py:597-607 | appending one summary drops from the live ones exactly those whose range it contains |
| SessionLog.CoalesceCut | agent/history.py:664-688 | a turn boundary of the coalesced thread is an entry boundary with the same time stamp |
| SessionLog.BetweenSplit | agent/history.py:649-688 | cutting the entries at the time stamp of one of them splits them into the part before and the part from it on |
| Compaction.SessionStore.SummaryChain | agent/history.py:584-612 | the loops that collect, supersede and sort return exactly the peer's summaries whose range no later one contains, by the end of their ranges and, for one end, by age |
| Heads.ChainListsLive | agent/history.py:584-612 | the same of the chain as a function of the log |
| Compaction.SessionStore.ScanTurns | agent/history.py:649-688 | one pass returns the lines that belong to the peer from the seam on, in log order, each longest run of one speaker as one turn that carries the run's texts in order with a blank line between |
| Compaction.SessionStore.RebuildConversation | agent/history.py:633-700 | the rebuilt thread is those turns from the end of the last live summary on; when asked for, the texts of the live summaries, oldest first, and the newest durable block lead it as a user turn, merged ahead of the text of a leading user turn |
| Heads.RebuiltAsLogged | agent/history.py:633-700 | the same of the thread as a function of the log, with or without the head |
| Threads.RebuiltIsThread | agent/history.py:649-688 | whose line a row is: it names its peer, or is the peer's own, or is a bot's that names nobody and answers whoever spoke last; its text has the note on attachments after it |
| Threads.CoalesceMerges | agent/history.py:681-688 | merging loses no text and swaps none: each turn is one run of consecutive entries by one speaker, from the first one's time |
| Heads.BlockIsHead | agent/history.py:615-630 | the summary block is the texts there are, oldest first, then the newest durable block, once |
| Compaction.SessionStore.MaybeFold | agent/compaction.py:395-430 | the log grows by the one fold row or not at all, and the result says which |
| Compaction.SessionStore.MaybeCompact | agent/compaction.py:433-515 | nothing changes when the budget is not positive, there are no turns, or both limits hold; with turns before the split point and a summarizer that answers, a summary from the old seam to the new one is written whenever the estimated tokens exceed the budget and whenever the turns exceed their limit |
| Compaction.GateIsExact | agent/compaction.py:463-511 | the same of the compaction step as a function of the log |
| Compaction.SessionStore.CompactPartition | agent/compaction.py:471-515 | past the budget gate: fold only, abort with nothing written, or one summary and then a fold |
| Convergence.CompactionConverges | agent/compaction.py:463-515 | an unvetoed call past the gate leaves at most the cap of live summaries, and a second call with no new rows, whatever its services answer, writes nothing |
| Convergence.CapHoldsIff | agent/compaction.py:463-515 | an unvetoed call leaves the chain within its cap if and only if the thread was over the gate or the chain was within the cap already |
| Convergence.LongChainStays | agent/compaction.py:467-470 | five short summaries under a budget of 100 tokens stay five under a cap of four |
| Convergence.PartitionConverges | agent/compaction.py:471-515 | past the gate nothing is left before the split point and the chain is within its cap |
| Convergence.FoldBounds | agent/compaction.py:407-411 | an over-long chain is cut to exactly the cap by one fold, and the tail is untouched |
| ToolPairs.HoldToolPairs | agent/compaction.py:240-256 | the loop returns the largest seam at or before the start that separates no tool result from its nearest call |
| ToolPairs.FindSplitPoint | agent/compaction.py:221-237 | the split point is the held seam of the last real user turn, or the end |
| ToolPairs.SplitIsStable | agent/compaction.py:221-237 | without tool turns the tail's own split point is 0 |
| FairShare.FairCharAllocations | agent/history.py:480-495 | shares sum to exactly the smaller of budget and demand, none exceeds its size, a cut message is within one of every other, shares follow the order of sizes |
| FairShare.MaxMinFair | agent/history.py:480-495 | any feasible allocation that gives one message more gives less to one whose share is at most one larger |
| FairShare.FillsEveryLevel | agent/history.py:480-495 | at every level the fair split fills at least as much as any feasible allocation |
| FairShare.CutGetsItsEqualShare | agent/history.py:480-495 | a cut message never gets less than the equal share of the whole budget |
| FairShare.LevelRises | agent/history.py:489-494 | the level, remaining divided by count, never falls from one step to the next |
| FairShare.SharesFair | agent/history.py:486-495 | along the size order shares ascend and what is cut is within one of everything else |
| History.FairTruncateTurns | agent/history.py:498-527 | each of the newest turns keeps role, time and place; a text within its share is whole, one with a share of at least 200 is its own beginning and a marker, together exactly the share, any other one a marker only; both markers say the length of the text; the flag says whether anything useful survived |
| History.RenderShows | agent/history.py:515-526 | the same of one text and its share |
| Markers.MarkersSayLength | agent/history.py:521-524 | the digits in either marker read back as the number |
| History.TruncationFits | agent/history.py:498-527 | for a budget of at least 25 tokens the whole output, markers included, has at most four characters a token |
| History.TinyBudgetFits | agent/history.py:498-527 | below 25 tokens the output fits if and only if the newest turn or its marker does |
| History.TinyMarkerOutgrows | agent/history.py:511-527 | a turn of 500 characters and a budget of 5 tokens, for which the marker alone is over the budget |
| Markers.DecimalLength | agent/history.py:512-525 | a count is written with at most k digits exactly when it is below ten to the k, which fixes the marker lengths |
| History.DropOldest | agent/history.py:530-541 | the longest suffix of whole turns within the budget |
| History.BuildHistory | agent/history.py:875-927 | the request is empty or starts with a user turn and strictly alternates, through truncation or dropping and the removal of leading assistant turns; a trimmed one opens with the note ahead of its first text; the oldest time stamp is that of its first turn |
| History.ConversationAlternates | agent/history.py:633-700 | the rebuilt thread of any log whatever alternates and holds no tool turn, so it is fit for the builder |
| History.ThreadHistoryMessages | agent/history.py:136-185 | a side thread opens as user and alternates also when its parent is bot-authored, with every text kept in order |
| TrimLoop.TrimLoopMessages | agent/history.py:378-452 | the in-place pass over message objects equals the pure three-phase pass on their values |
| TrimPromises.FreshKeepsItsStart | agent/history.py:415-452 | from the last message with calls on, or with no calls from the last tool result on, a tool result keeps its capped text or at least its first 512 characters and the marker |
| TrimPromises.OverBudgetMeansSpent | agent/history.py:415-452 | when the pass ends over budget every tool result before that message is the placeholder and every later one has at most 1024 characters |
| TrimPromises.CurrentIsUntouched | agent/history.py:396-411 | messages that are not plain replayed chat and no tool results never change, and decisions of the user only meet the cap |
| TrimPromises.FreshComesLast | agent/history.py:396-452 | a fresh result is shortened only after every older one and all replayed chat is spent |
| TrimPromises.ChatComesFirst | agent/history.py:396-436 | an older result is replaced only after all replayed chat is spent |
| TrimPromises.TrimIsLazy | agent/history.py:396-452 | the pass stops as soon as it may: with the message it rewrote last as it was before, the list is over budget |
| TrimPromises.TrimCutsNoMore | agent/history.py:438-452 | once a fresh result is shortened the pass ends no more than 20 tokens below the budget, and within it if that result keeps more than 512 characters |
| TrimLoop.SweepInPlace | agent/history.py:396-452 | one phase keeps the running total equal to the real sum without summing again, and stops as soon as the budget is met |
| TrimLoop.RewriteMessage | agent/history.py:404-450 | one message is rewritten as its phase says, and the returned difference is the change of its cost |
| TrimLoop.TrimKeeps | agent/history.py:378-452 | order, roles, names and pairing fields never change; current human and assistant messages never change; decisions only meet the hard cap |
| TrimLoop.TrimFitsOrIsSpent | agent/history.py:378-452 | the pass ends within budget or with every message spent: placeholders for old results, at most 1024 characters for new ones, placeholder cost for plain replay |
| TrimLoop.TrimShortensByPrefix | agent/history.py:438-452 | a shortened new observation is a prefix of at least 512 characters of it and the marker |
| TrimLoop.TrimIdempotentExactly | agent/history.py:378-452 | a second pass changes nothing if and only if the first ended within budget or no replayed picture result was grown |
| TrimLoop.TrimIdempotentWithoutRegrowth | agent/history.py:378-452 | a list in which no picture result can be grown is trimmed once and for all |
| TrimLoop.TrimIdempotentOnTextReplay | agent/history.py:378-452 | with text-only replay a second pass never changes anything |
| TrimLoop.TrimNotAlwaysIdempotent | agent/history.py:428-436 | an input on which a second pass does change the list |
| EchoGuard.Guard.IsEcho | agent/echoguard.py:100-119 | true if and only if the identity was last touched less than the time to live ago and fewer than cap distinct identities were touched since; a hit counts as a touch |
| EchoGuard.Guard.Reserve | agent/echoguard.py:80-98 | a reservation is a touch of the unbounded history, unless sender or id is empty |
| EchoGuard.RememberedIsAlive | agent/echoguard.py:80-126 | the living keys of the bounded map are exactly those the unbounded history remembers |
| EchoGuard.ReserveKeeps | agent/echoguard.py:80-98 | pruning, popping, appending and evicting from the front keep map order equal to expiry order and never drop a living key ahead of an older one |
| EchoGuard.HitKeeps | agent/echoguard.py:100-119 | refreshing a hit keeps the same invariant |
| EchoGuard.Guard.Prune | agent/echoguard.py:121-126 | lazy pruning from the front leaves what follows the expired front |
| Delivery.NothingIsLost | agent/runtime.py:3531-3830 | over every run with crashes at any step and re-sent inputs, every message that arrived is queued, answered, cancelled, given up, or archived because a crash hid its send; and a receipt is never false |
| Delivery.NoCrashNoDoubt | agent/runtime.py:3586-3618 | without a crash nothing is ever archived as uncertain |
| Delivery.StepKeeps | agent/runtime.py:3531-3830 | each step, crashes and sweeps included, keeps the invariant: a turn's targets are marked before and receipted after its one send, what is archived as answered was answered, rows go only after the inbox entries, receipts are true |
| Delivery.ReceiptStays | harness/delivery.py:522-657 | a receipt is never taken back or downgraded except by dropping its row |
| AnswerOnce.OwnReplyAtMostOnce | agent/runtime.py:3552-3618 | no schedule of crashes and sweeps gives a message that is not joined to another turn a second ledgered reply, because its claim goes before its rows |
| AnswerOnce.CoveredOwnReplyOnce | agent/runtime.py:3552-3618 | joined or not, a message whose rows are dropped only while no claim with budget left lists it gets at most one reply of its own; answered and still queued it has a row that says so, and it is never run again once its own reply is out |
| AnswerOnce.GuardedAnsweredOnce | agent/runtime.py:1583-1626 | with that and a look at the handoff's row before each join, no message is answered twice at all |
| AnswerExact.JoinIsSafeIffUnsettled | agent/runtime.py:1583-1626 | by what the joining code can see, a join can lead to a second answer if and only if the handoff's own row says that a reply left or may have left |
| AnswerExact.SentJoinRepeats | agent/runtime.py:3845-3870 | with a receipt on record there is no doubt: the join repeats the answer in this very state |
| AnswerExact.RunningAnsweredRepeats | agent/runtime.py:3845-3870 | a turn that has or has joined an answered message sends it a second answer by its own steps |
| AnswerExact.PruneIsSafeIffSpent | agent/runtime.py:3827-3830 | dropping the row of an answered message can lead to a second answer if and only if an unsettled claim with budget left lists it |
| AnswerRuns.HandoffCanBeAnsweredTwice | agent/runtime.py:1583-1626 | a run in dispatch order, every finished turn having joined all that is queued, with one deferral, one abandoned turn, one crash and no row dropped, in which a handoff is answered twice |
| AnswerRuns.OwnReplyCanRepeat | agent/recovery.py:157-223 | a run of the same kind, with one deferral, two crashes and every join of it clean, in which a message gets two replies of its own |
| Attempts.GivenUpIff | agent/runtime.py:3531-3549 | a dispatch is over the limit exactly when the bot's last two dispatches were of this message, the last one crashed, and the one before crashed or was put off; a crash may also cut off the giving up itself |
| Attempts.OneCrashCanSuffice | agent/runtime.py:3800-3801 | a deferral and one crash |
| Attempts.TwoCrashesWithoutDeferral | agent/runtime.py:3891-3918 | a message that is never put off is given up only after two crashes of its own in a row |
| Attempts.AttemptFile.RunDispatch | agent/runtime.py:3891-3918 | the one-slot file always says what the dispatches so far imply, and a dispatch over the limit gives up unless a crash cuts it off |
| TurnCode.Bot.ReplyTerminal | agent/runtime.py:3845-3870 | marks every target, sends once, writes every receipt; each write is one step of the machine, so a crash may fall anywhere between |
| TurnCode.Bot.ReplyTo | agent/runtime.py:3863-3870 | all intents stand before the one send and all receipts follow it |
| TurnCode.Bot.SettleTurn | agent/runtime.py:3784-3830 | everything answered leaves the inbox, then the claim goes, and only then the rows |
| TurnCode.Bot.DispatchTurn | agent/runtime.py:3531-3680 | a message tried too often, or whose row is sent, inflight or uncertain, is archived without running; a stopped one is replied to once and settled; any other one is claimed and runs with its pending row cleared |
| Queue.NextTask | agent/runtime.py:3324-3350 | the pick is the oldest unplaced Send-now chat not put off; else the item placed furthest ahead; else, in the first of user, colleague and background lanes with work, the oldest not put off, or the oldest; and with distinct ids in the order file it is the head of the waiting line unless that head was put off and not placed by the user |
| Queue.RuleFollows | agent/runtime.py:3324-3350 | the sort key decides exactly as that rule says |
| Queue.HeadIsNext | agent/messaging.py:236-247 | the lane picker and the sorted line agree on their first message |
| Queue.PendingIncreasing | agent/messaging.py:236-247 | the waiting line is strictly ordered by the sort key |
| Queue.LineIsUnique | agent/messaging.py:236-247 | the sort key determines the line: two ordered lines of the same messages are equal |
| Queue.ReorderIsObeyed | agent/messaging.py:236-267 | with a saved order the line is the Send-now chats that arrived since, then exactly the chosen ids, then the plain arrivals |
| Queue.DrainsInOrder | agent/runtime.py:3339-3343 | the picker takes the first chosen id, even a deferred one, and what then waits is the rest of the chosen order |
| Queue.Line.Reorder | agent/messaging.py:262-267 | the order is saved if and only if the ids are distinct and are those waiting, and then the line reads exactly as chosen |
| Scheduler.EveryScheduleKeeps | agent/scheduler.py:184-252 | in every interleaving the zombies are exactly the escaped unsettled runs, listed once, none of them active, and an active run carries the newest generation |
| Scheduler.NeverCurrentAgain | agent/scheduler.py:195-198 | a run that is not current never becomes current again |
| Scheduler.CurrentUntil | agent/scheduler.py:184-252 | a current run stays current until another begins or it is itself escaped or finished |
| Scheduler.EscapeIsFinal | agent/scheduler.py:213-231 | an escape that succeeds found the run current and unsettled; afterwards every escape of it fails and every guard check of it drops the call |
| Scheduler.TurnScheduler.BeginRun | agent/scheduler.py:184-193 | a new run takes the next generation and is current |
| Scheduler.TurnScheduler.EscapeRun | agent/scheduler.py:213-231 | escape succeeds exactly when the run is active and not settled |
| Scheduler.TurnScheduler.SettleRun | agent/scheduler.py:233-246 | settling marks the run and removes a zombie from the list |
| Scheduler.TurnScheduler.FinishRun | agent/scheduler.py:248-252 | finishing clears the active run only if it is this one |
| Scheduler.TurnScheduler.IsCurrent | agent/scheduler.py:195-198 | the three-way check on objects decides currency in the state machine |
| Scheduler.GuardedStreamWriter.Write | agent/scheduler.py:280-294 | a call reaches the writer exactly when the run is current at the check |
| Obligations.RedriveIsBounded | agent/obligations.py:178-224 | over every run at most three prompts for one obligation, and any two prompts at least the idle window apart, across obligations and for a negative window too |
| Obligations.DroppedExactlyAfterRedrives | agent/obligations.py:195-224 | left alone, an obligation is dropped exactly when the overdue polls exceed the redrives it has left, each earlier one having sent one prompt |
| Obligations.QuietWhileUserWaits | agent/obligations.py:206-207 | polls that find a user chat queued never send a prompt |
| Obligations.QuietAfterActivity | agent/obligations.py:114-206 | after an accept, or a reply that leaves the obligation open, no poll within the idle window does anything |
| Obligations.ReplyClosesIffRemembered | agent/obligations.py:114-175 | after any accepts, replies and polls, a reply with nothing queued closes the open obligation exactly when its message is among the last twenty accepted since it was opened |
| Obligations.ForgottenReplyLeavesOpen | agent/obligations.py:114-175 | after more than twenty accepted messages a reply to the first one leaves the obligation open |
| Obligations.RunKeeps | agent/obligations.py:114-224 | every run of accepts, replies and polls keeps the count on record equal to the prompts really sent and the reference time at or after the last of them |
| Obligations.Keeper.RecordSend | agent/obligations.py:114-140 | the first accept opens a fresh record; a later one restarts its clock, counts, and remembers the message among the last twenty |
| Obligations.Keeper.Settle | agent/obligations.py:157-175 | a reply to a remembered message closes the record, or restarts its clock while the user has more queued; any other one changes nothing |
| Obligations.Keeper.MaybeRedrive | agent/obligations.py:178-224 | a prompt goes out exactly when no user chat waits, the last accept, reply and prompt are an idle window ago and fewer than three went out; after three the record is dropped |
| StreamFile.PollsAreOnePass | agent/streaming.py:574-603 | however the file grows and whenever it is polled, the polls together yield what one pass over the final file yields, and stop where it stops |
| StreamFile.ResumeIsExact | agent/streaming.py:565-603 | resuming at the offset of any event yields exactly the events after it |
| StreamFile.ReadingInvertsWriting | agent/streaming.py:584-603 | from any line start the reader yields one event for each appended line that parses, with the byte offset of its end, and nothing for a partial last line |
| StreamFile.EventsGrow | agent/streaming.py:584-603 | a pass over a grown file is the old pass followed by a pass from where it stopped |
| StreamFile.StreamReader.ReadNew | agent/streaming.py:574-603 | one poll yields the events from the old offset and moves the offset to the end of the last complete line |
| StreamFile.FullFrameIsAllDeltas | agent/streaming.py:253-295 | until the reply is closed each full frame's text is the concatenation of all deltas before it |
| StreamFile.LostFramesHeal | agent/streaming.py:253-272 | after a full frame a client that lost any earlier frames shows the same text as one that saw all |
| StreamFile.StreamWriter.Delta | agent/streaming.py:274-295 | a chunk goes out as a delta, and with a full frame exactly when it is the first, the last one is a tenth of a second old, or 512 characters wait; only the first full frame is an insert |
| StreamFile.StreamWriter.Final | agent/streaming.py:431-445 | the closing frames carry the authoritative text, which is what every client then shows |
| Terminals.WidthIsFixedIff | agent/terminals.py:68-89 | the header keeps its width exactly while the process id has at most ten digits and the running time at most twelve, for every status |
| Terminals.RewriteKeepsBodyIff | agent/terminals.py:204-213 | rewriting the header keeps a body that has begun if and only if the width is unchanged |
| Terminals.Session.RewriteHeader | agent/terminals.py:204-213 | an open header shows the current fields and the body is untouched; a closed one is left alone |
| Terminals.HeaderReports | agent/terminals.py:68-89 | process id, status word and running time stand in their places, padded, and the numbers read back |
| Terminals.Session.Append | agent/terminals.py:262-274 | the body is the concatenation of everything appended, in every interleaving with header rewrites |
| Terminals.Session.FinalizeBody | agent/terminals.py:225-241 | of watcher and canceller only the first writes a footer |
| Terminals.Session.FinalizeHeader | agent/terminals.py:242-252 | the final status, aborted when cancelled, is written into the header, the body untouched, and the header is closed |
| Terminals.Session.CancelAndFinalize | agent/terminals.py:282-286 | a cancelled command ends aborted whatever its exit code, unless the watcher had finalized it, before or after closing the header, and then nothing changes |
| Terminals.TailOfWholeInput | agent/terminals.py:590-604 | after any writes the remembered tail is the last 4096 characters after the last newline of the whole input |
| Terminals.TailStep | agent/terminals.py:590-604 | cutting the remembered tail loses nothing a later write could need |
| Terminals.Tails.NoteStdin | agent/terminals.py:582-604 | one shell's tail is updated and every other shell's is unchanged |
| Blocks.ValidateView | agent/blocks.py:81-141 | nothing is reported if and only if the nodes in preorder satisfy the flat predicate; otherwise the report is the first offence of the first offending node |
| Blocks.VisitsArePaths | agent/blocks.py:136-141 | the visited nodes are exactly those that child positions lead to, each at the depth of its path |
| Blocks.Validator.Check | agent/blocks.py:90-135 | one node is judged against count, names and answers exactly as the flat predicate judges it against all nodes before it |
| Blocks.Validator.Walk | agent/blocks.py:90-141 | the stateful walk of a subtree returns the verdict on its preorder |
| Blocks.AcceptIff | agent/blocks.py:90-135 | one more node keeps the flat predicate exactly when the walk's state accepts it |
| Blocks.VerdictNone | agent/blocks.py:81-141 | judging nodes one by one accepts all of them exactly when the flat predicate holds |
| PdfText.LiteralInvertsSpelling | connectors/pdftext.py:44-84 | whatever mix of raw bytes, balanced parentheses, escapes and continuations spells a string, the parser returns its bytes and the index past its end |
| PdfText.NamedEscapes | connectors/pdftext.py:32-41 | the eight named escapes and their bytes |
| PdfText.OctalSpellsAnyByte | connectors/pdftext.py:59-66 | every byte has a three-digit octal spelling whatever follows it |
| PdfText.OctalMeans | connectors/pdftext.py:59-66 | any byte string written as octal escapes means that byte string |
| PdfText.Literal | connectors/pdftext.py:44-84 | the loop over index, depth and bytes equals the recursive reading, and always moves past its start |
| PdfText.ExtractStream | connectors/pdftext.py:101-138 | the scanner terminates on every input and equals the iterated step |
| PageText.ExtractionInvertsWriting | connectors/pdftext.py:101-138 | from a stream of literal and hexadecimal strings, kerned arrays, comments and operators, extraction returns what these mean: Tj, TJ and the quotes show what waits, in order, the quotes and Td, TD, T*, ET break the line when that is due, every other operator drops what waits |
| PageText.OperateMirrors | connectors/pdftext.py:127-136 | each operator has exactly that effect on text, last piece and waiting strings |
| PageText.BreakIsDueIff | connectors/pdftext.py:129-134 | a break is due if and only if the text is not empty and does not end in one, or the piece shown last was empty |
| PageText.NothingShownBreaks | connectors/pdftext.py:127-136 | a page that shows one empty string and then ends its text object has a line break and nothing else |
| PageText.TokenIsOneStep | connectors/pdftext.py:101-138 | each written token is read by one step of the scanner, which stops right past it and then holds what the token means |
| PageText.HexIsRead | connectors/pdftext.py:87-98 | two hexadecimal digits a byte read back as the bytes |

## Left out

- Provider calls, retries of the summarizer, required terms, fold vetoes and the summary texts: arbitrary functions of the time and of what is summarized; the date stamp inside a summary is one too.
- Room and thread records, message ids, attachments and reply counts in the session log: only 1:1 chat lines and summaries are rows.
- Legacy rows: a chat line without a peer is attributed as the code does, but a summary without a start of range is not modelled.
- ChainRuns.EveryEntryExactlyOnce: time stamps of log rows are real numbers that strictly increase in append order; equal stamps are not modelled here, while the methods of `Compaction` allow them.
- ChainRuns.UndisturbedRunFits: each rebuilding of the thread is one read of the log, and a compaction reads at most three times, where the code may see a longer log in each loop.
- The durable transcript pointer's text and the way the token budget of a request is computed are parameters.
- Rewriting of a message's `name` for display, Unicode strip and casefold, JSON and UTF-16 decoding: parameters or already applied values.
- EchoGuard.Guard.constructor: a negative capacity is not modelled; a capacity of zero is.
- Delivery: the ledger's mid-turn rows, its expiry of week-old rows, failing ledger and claim writes and failing renames are not modelled, nor the refund of a re-sending that fails; a sweep handles one claim as one step, and the re-sent part of it may stop anywhere.
- Delivery: user follow-ups steered into a running turn are archived at once and listed in its claim; they are not modelled, room handoffs are.
- Delivery: any queued message may be dispatched next, a larger set of runs than the code's; the runs of `AnswerRuns` keep its order and join everything queued before a turn ends. Giving up is likewise a free choice here and exact in `Attempts`; the drop after five interrupts is not counted.
- Delivery: the crash-drop notice, the interrupt notice and the drain notice bypass the ledger in the code and are not replies here.
- TurnCode.Bot.SettleTurn: rows are dropped in an arbitrary order, where the code drops the turn's own row first.
- Queue: the file formats, the lock and the linking of steered messages; which messages are joined to the running turn is a parameter.
- Scheduler: trip reasons, interrupts, the deferred set and event logging carry no invariant and are left out; the guard's check and the write behind it are separate steps in the code, so nothing is claimed about a byte that lands after an escape.
- Obligations: prompt texts and the count of coalesced messages; the idle window is fixed during a run.
- StreamFile: cards, prompts and blocks in the stream, fsync timing, and the hop of a reader to the stream it was steered to.
- Terminals: processes, signals and the machine backend; characters stand for bytes of an ASCII header; a running time is never negative.
- Blocks: children that are not a list, the chart check and the wording of errors.
- PdfText: finding and inflating streams in the file.
- PageText.ExtractionInvertsWriting: a written hexadecimal string has two upper-case digits a byte and no white space, a comment ends before the stream does, and dictionaries are not among the tokens; the scanner itself reads the rest as the code does.
- `agent/policy.py`, `agent/govern.py`, prompts, tools, connectors and user interfaces: case splits and plumbing that would add only easy members.
