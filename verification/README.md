# Verification model of the Forven backend's stateful cores

Forven is a self-hosted trading research platform: language-model agents design
strategies, walk-forward backtests judge them, and a supervised runtime trades
them. This project models the parts of its backend whose correctness spans many
steps, and proves what they promise. `dafny verify dfyconfig.toml` checks all of it.

Three forms are used, following the code. Code that updates rows, files or
settings in place is a class (`TurnEngine.Store`, `SnapshotDirectory.Directory`,
`DropZone.SessionTable`, `BookRouting.SettingsBlob`) whose methods are proved to
compute a specification function. Loops over local variables are methods with
invariants. Pure code is functions. The theorems are lemmas about the
specification functions, over whole runs wherever the promise is about runs.

| modules | what they model | main results |
|---|---|---|
| `ModelStream`, `Transcript`, `TurnSpec`, `TurnSafety`, `TurnRuns`, `ActionsOff`, `TurnFailures`, `TurnEngine` | the assistant: one model invocation with retries, the stored thread, a tool-loop turn, operator confirmations | while no cost cap is raised every request sent to the model has all its tool calls answered, in every reachable store and after the history cut; a turn closes on one event; a gated tool runs through an approved pending action, once, or in a turn with actions off, and in no other way |
| `RuntimeLock` | API processes contending for the background-loop lock, with the deferred retry thread | over all interleavings a running, unstopped process holds the lock, so at most one does; what shutdown can miss |
| `SnapshotNames`, `SnapshotStore`, `SnapshotSafety`, `SnapshotRuns`, `SnapshotDirectory` | managed database snapshots: name grammar, per-reason window, byte ceiling, failure paths | printer and parser are inverse; the sweep is oldest-first and minimal; windows and a recovery point survive every run |
| `TradeArtifacts`, `EquityCurve` | the trade writer and reader, the equity downsampler, the drawdown loop | write-then-read is exact if and only if every row is faithful; drawdown is the worst loss over all pairs; the true size cap of a reduced curve |
| `FoldCompounding`, `TrendBaseline`, `LeastSquares`, `AlphaSignificance`, `HurdleVerdict` | the walk-forward baseline hurdle | compounding is conserved; no look-ahead; exposure is not alpha |
| `IsoTime`, `DropZone` | drop-zone sessions, numbered and swept by text order | text order is time order and number order up to 10000; closed is for ever |
| `ExceptionWalk`, `FallbackChain` | error classification and the provider fallback chain | the walk is exact on cyclic causes; error precedence; bounded requests |
| `BookRouting` | the risk section of the settings writer | an open direction-book trade stays routable over every run |

`Basics`, `Text` and `RealMath` hold options, strings and elementary real arithmetic.

Identifiers of stored rows are their positions, processes and threads take atomic
steps, providers and tools are arbitrary functions, real numbers replace floats, and
a division by zero gives a missing value. The clock, the environment and the disk
are parameters.

## Where the code does not do what its text says

The model follows the code, and each of these is stated exactly:

- An invocation that fails is meant to surface as an error
  (`forven/assistant_session.py:120-123`). When it fails before its first attempt (a
  missing credential, lines 138-139) the turn ends on `internal` with the exception's
  text, in every round. When it fails later in a tool round it surfaces if and only if
  the exception has a non-empty text, because line 326 tests the truth of that text;
  otherwise what was shown is stored as a finished answer. When it fails later in the
  forced final answer (lines 420-439) what was shown is stored if and only if the
  exception has no text and something other than blanks was shown; otherwise the turn
  ends on `max_rounds`, which hides the provider's error
  (`TurnFailures.FailureSurfacesIff`, `TurnFailures.FragmentCanPassForAnswer`).
- Gated tools are meant to run behind a confirm card
  (`forven/assistant_session.py:78-81`). With actions off they are not offered to the
  model, but a call that names one is run there and then, without a card
  (lines 367 and 396); a gated run lacks an approval if and only if such a turn made it
  (`TurnRuns.UnapprovedIffActionsOff`, `ActionsOff.GatedRunIff`,
  `ActionsOff.OffTurnRunsGatedTool`).
- A turn that reaches its cost cap leaves the model's last calls unanswered, and a cap
  raised afterwards sends them so, exactly then (`TurnFailures.UnansweredIffCapped`).
- "Exactly one final" per invocation (`forven/assistant_session.py:116-118`) depends on
  when providers respond (`ModelStream.OneFinalIff`).
- Calls stay unanswered when the client leaves in the middle of a turn
  (`TurnFailures.AbandonedTurnSettlesIff`).
- A threshold change is meant to apply to stored hurdle results
  (`forven/baseline_hurdle.py:356-358`). An "insufficient" reason written by an
  earlier classification outlives it, through any number of changes
  (`HurdleVerdict.ReclassifiesIff`, `HurdleVerdict.HistoryCountsIff`).
- `max_points = 5000` does not cap a reduced equity curve; the true cap is 9999
  (`EquityCurve.ReducedLength`, `EquityCurve.ReducedFitsIff`).
- A trade row can be read back with another dollar PnL or return than was written
  (`TradeArtifacts.ReadBackIffFaithful` says exactly when, `TradeArtifacts.ReadBackCanDiffer`
  gives one).
- The book-routing guard fails open when its query raises
  (`BookRouting.FailedQueryKeepsRoutableIff`, `BookRouting.FailedQueryCanMisroute`).
- A shutdown keeps the lock until exit if and only if its check falls between the retry
  thread's stop check and its flag (`RuntimeLock.ShutdownKeepsTheLockIff`), and stopped
  loops can overlap the next owner's if and only if they are threads
  (`RuntimeLock.OverlapIffThreaded`).
- The ten-thousand-and-first drop-zone session is refused, and so is every later one
  (`DropZone.CreateSucceedsIff`).

## Model

| member | source | states |
|---|---|---|
| ModelStream.ConsumeAttempt | forven/assistant_session.py:126-150 | consuming one attempt passes on exactly its non-empty deltas and its final, and records whether any text was shown |
| ModelStream.ConsumeFallback | forven/assistant_session.py:181-204 | the non-streaming fallback yields exactly one final, last; it carries the error with nothing shown, or it carries exactly the text shown |
| ModelStream.InvokeStream | forven/assistant_session.py:114-204 | the retry loop with its `produced` flag emits exactly the specified item stream, makes the specified number of attempts and falls back exactly when specified |
| ModelStream.ShownTextHasOneSource | forven/assistant_session.py:116-124 | for every pattern of failures the operator sees the text of a single source, every other attempt having shown nothing, and at most four attempts are made |
| ModelStream.ExactlyOneFinal | forven/assistant_session.py:114-204 | when providers end on their one response, every invocation ends on exactly one final item, whatever fails |
| ModelStream.FinalsAreCounted | forven/assistant_session.py:114-204 | whatever providers do, an invocation yields one final for each response of the attempts made, and one more unless the last of them finished |
| ModelStream.OneFinalIff | forven/assistant_session.py:116-118 | so the promised "exactly one final" holds if and only if those attempts gave one response in all when the last finished, and none when it did not |
| ModelStream.ResponseThenRaiseClosesTwice | forven/assistant_session.py:151-180 | the assumption is needed: a provider that responds and then raises yields two finals |
| Transcript.AppendKeepsNumbering | forven/assistant_db.py:147-191 | taking the next number from the current maximum keeps every thread numbered 1, 2, 3 and so on, and gives the appended row the next number |
| Transcript.AppendOwed | forven/assistant_db.py:147-191 | what an appended row does to a thread's owed tool results and to its total cost |
| Transcript.AppendElsewhere | forven/assistant_db.py:147-201 | an append to one thread leaves every other thread's listing as it was |
| Transcript.StatusOnly | forven/assistant_db.py:213-228 | a status update changes no thread's numbering, cost or call/result pairing |
| Transcript.RowsToMsgs | forven/assistant_session.py:207-236 | rebuilding model messages from rows preserves the pairing of calls and results, from any number of results owed at the start |
| Transcript.OrphansThenPaired | forven/assistant_session.py:207-236 | a paired history cut anywhere starts with the results owed from before the cut, in order, and is fully paired after them |
| Transcript.PairedMeansAnswered | forven/assistant_session.py:359-366 | in a paired history every assistant message is followed, in order, by one result message for each of its calls |
| Transcript.CutHistoryIsAnswered | forven/assistant_session.py:301-303 | wherever the 60-row cut falls, the history rebuilt from a settled thread is paired |
| TurnSpec.RoundsCap | forven/deepdive_session.py:36-45 | the tool-round cap lies in 2..40 for every stored value |
| TurnSafety.AnswerCallsSettleAll | forven/assistant_session.py:354-403 | answering the calls of one reply, by tool run or by confirm card, settles all of them in order, sends nothing and costs nothing |
| TurnSafety.TurnKeepsPairing | forven/assistant_session.py:267-439 | a whole turn leaves its thread settled or at its cost cap, and every request it sends has all its calls answered, whatever model and tools do |
| TurnSafety.TurnClosesOnce | forven/assistant_session.py:305-443 | every turn emits exactly one `done` or `error` event, as its last, after at most rounds cap + 1 requests, also when an invocation raises before its first attempt |
| TurnSafety.RaisedAnywhereClosesOnce | forven/assistant_session.py:441-443 | an exception escaping anywhere inside the turn closes it once too: any proper prefix of its events followed by `internal` has one closing event, the last |
| TurnRuns.TurnGrew | forven/assistant_session.py:267-445 | a turn only appends rows to its own thread and unapproved runs to the log; with actions allowed the runs are ungated and every action added is pending, with actions off no action is added |
| TurnRuns.RunsKeepPairing | forven/assistant_session.py:267-499 | in every store reached by turns, with actions on or off as each request says, and confirmations, while no cost cap is raised, every thread is settled or at its cap |
| TurnRuns.EveryRequestIsAnswered | forven/assistant_session.py:301-316 | hence every request of the next turn after any such run has all its calls answered |
| TurnRuns.RunsAreApproved | forven/assistant_session.py:459-486 | in every reachable store each approved run belongs to an action that executed or failed, with that action's call, and no action ran twice |
| TurnRuns.UnapprovedIffActionsOff | forven/assistant_session.py:362-396 | over all runs mixing both kinds of turn, a gated tool ran without an approval if and only if a turn with actions off ran it |
| TurnRuns.RunsAreGatedIff | forven/assistant_session.py:362-392 | in a reachable store every gated run is approved if and only if no turn with actions off made one |
| ActionsOff.CallsRun | forven/assistant_session.py:357-403 | with actions off all calls of a reply are run, in order and unapproved; with actions on exactly the ungated ones |
| ActionsOff.OffTurnLogged | forven/assistant_session.py:394-403 | a whole turn with actions off runs exactly the calls whose results it stores, in order |
| TurnRuns.RunsAreAccounted | forven/assistant_session.py:469-486 | in every reachable store, whichever turns had actions on, an action is marked executed or failed if and only if its tool has run for it; a pending or rejected one never ran |
| TurnRuns.SettledActionsAreFinal | forven/assistant_session.py:448-499 | along every run an action leaves `pending` at most once and then never changes, rows keep place, thread, number, cost and all else, and the log of tool runs only grows |
| ActionsOff.GatedRunIff | forven/assistant_session.py:362-486 | a step runs a gated tool if and only if it approves a pending action of that thread whose stored call names one, or is a turn with actions off that stores the result of a gated call |
| ActionsOff.OffTurnRunsGatedTool | forven/assistant_session.py:362-396 | a concrete run: one turn with actions off promotes a strategy with no card and no action row |
| TurnFailures.FailureSurfacesIff | forven/assistant_session.py:305-443 | for every turn whose invocation of some round fails, whatever came before: before the first attempt it ends on `internal` with nothing sent or stored; later in a tool round it ends on that error if and only if the exception has a text, otherwise what was shown is stored as a finished answer; later in the forced final answer that happens if and only if there is no text and something other than blanks was shown, and otherwise the turn ends on `max_rounds` |
| TurnFailures.FragmentCanPassForAnswer | forven/assistant_session.py:326-340 | a concrete script: a stream that breaks off after one word with a textless exception is stored as the answer |
| TurnFailures.AbandonedTurnSettlesIff | forven/assistant_session.py:354-403 | a turn abandoned when m calls have been answered is settled if and only if those were all, and the next request is fully answered if and only if those were all or the model's message has left the 60-row history |
| TurnFailures.UnansweredIffCapped | forven/assistant_session.py:358-360 | after a turn on a settled thread, the thread is settled, and its next request would be fully answered, if and only if the turn did not end on the mid-turn cost cap |
| TurnEngine.Listen | forven/assistant_session.py:312-324 | the consumer loop shows every non-empty delta, joins all text in order and keeps the last final |
| TurnEngine.Store.AppendMessage | forven/assistant_db.py:147-191 | the appended table is exactly the specified one and the new row's id is returned |
| TurnEngine.Store.SetMessageStatus | forven/assistant_db.py:213-219 | only that row's status changes |
| TurnEngine.Store.Answer | forven/assistant_session.py:362-403 | one call in place: confirm card with placeholder result, or tool run with stored result, with the specified message and events |
| TurnEngine.Store.AnswerAll | forven/assistant_session.py:357-403 | the loop over one reply's calls computes the specified store, messages and events |
| TurnEngine.Store.Settle | forven/assistant_session.py:325-403 | the model's answer is stored with its cost, and then the turn finishes, is capped or goes on, as specified |
| TurnEngine.Store.DoRound | forven/assistant_session.py:305-403 | one round in place refines the specified round |
| TurnEngine.Store.RunRounds | forven/assistant_session.py:304-439 | the tool loop and the forced final answer compute the specified turn |
| TurnEngine.Store.ForceFinal | forven/assistant_session.py:405-439 | once rounds are used up, one more answer is asked for, its tool calls are ignored, and the turn closes |
| TurnEngine.Store.DoTurn | forven/assistant_session.py:267-445 | a whole turn in place has exactly the specified rows, runs, requests and events |
| TurnEngine.Store.DoConfirm | forven/assistant_session.py:448-499 | the operator's decision in place has exactly the specified rows, runs and reply |
| RuntimeLock.RunKeepsInv | forven/api.py:597-698 | every interleaving of startup, retry, shutdown and exit steps keeps the lock invariant of all processes |
| RuntimeLock.RunningHoldsTheLock | forven/api.py:632-640 | over all interleavings a process that runs the loops and has not been told to stop owns the lock |
| RuntimeLock.AtMostOneActive | forven/runtime_worker.py:1093-1100 | hence at most one such process exists |
| RuntimeLock.LateAcquirerGivesBack | forven/api.py:612-617 | a retry that acquires after stop was set starts nothing under any later schedule and, once it has looked at the stop event, gives the lock back |
| RuntimeLock.GiveBackFreesTheLock | forven/api.py:615-617 | giving back leaves the lock free and ends the retry thread |
| RuntimeLock.StartupOwnerFreesTheLock | forven/api.py:675-698 | a process that took the lock at startup no longer owns it when its shutdown is over |
| RuntimeLock.UnownedLoopsAreStoppedThreads | forven/api.py:690-698 | over all interleavings loops run without the lock only in a thread-mode process that was told to stop |
| RuntimeLock.OverlapIffThreaded | forven/api.py:690-698 | from every state of the invariant, the loops of an active process can come to run beside the next owner's if and only if the process is in thread mode |
| RuntimeLock.StoppedLoopsOverlapTheNextOwner | forven/api.py:692-698 | a run of two processes in which that happens |
| RuntimeLock.ShutdownCanMissTheRetry | forven/api.py:615-621 | a reachable state where a stopped process runs the loops and keeps the lock until exit |
| RuntimeLock.ShutdownKeepsTheLockIff | forven/api.py:615-698 | a shutdown that owns the lock keeps it under every schedule until exit if and only if its check of the flag falls between the retry's stop check and its setting of the flag |
| RuntimeLock.FreedLockIsTakenOver | forven/api.py:603-621 | once the lock is free, a serving process whose retry is waiting can take it and start the loops, disturbing no other process |
| TradeArtifacts.NormalizeTradeArtifactRows | forven/backtest_api.py:1852-1902 | the writer loop stores exactly the specified rows, carrying equity from one to the next |
| TradeArtifacts.NormalizeTradeRows | forven/backtest_api.py:220-325 | the reader loop returns exactly the specified trades, or raises exactly when specified |
| TradeArtifacts.ReadBackOne | forven/backtest_api.py:262-309 | one stored row is read back exactly if and only if it is faithful, and then reader and writer carry the same equity on |
| TradeArtifacts.ReadBackIffFaithful | forven/backtest_api.py:220-325 | for every input, write-then-read reproduces every return and dollar PnL if and only if every written row is faithful |
| TradeArtifacts.ReadBackCanDiffer | forven/backtest_api.py:287-298 | a row whose zero PnL is read back as half the equity |
| TradeArtifacts.DerivedRowsReadBackIffPlain | forven/backtest_api.py:1876-1890 | when the writer derives the PnL, that condition is a check on the raw rows alone, whatever the equity |
| TradeArtifacts.PnlsAreTheEquityChange | forven/backtest_api.py:1876-1900 | derived dollar PnLs never exceed the change of equity and add up to it if and only if no trade is overdrawn |
| TradeArtifacts.WipedOutStaysOut | forven/backtest_api.py:1896-1900 | zero equity is absorbing: every later dollar PnL is zero |
| TradeArtifacts.ReadRaisesIffFirstIsBare | forven/backtest_api.py:281-307 | reading raises if and only if the first row it keeps has neither return nor usable prices |
| TradeArtifacts.InheritsIffBare | forven/backtest_api.py:262-307 | what a kept row shows depends on the row before it if and only if it is bare; its own ratio never does, and a bare row shows exactly its predecessor's return |
| EquityCurve.MaxDrawdown | forven/backtest_api.py:863-873 | the one-pass result is zero or a loss that occurs between an earlier and a later point; for non-negative equity it bounds the loss of every such pair and is at most 100 |
| EquityCurve.DrawdownIsUnique | forven/backtest_api.py:863-873 | only one number has these properties |
| EquityCurve.NormalizeEquityPoints | forven/backtest_api.py:192-217 | the loop and the slicing compute the specified reduction of the usable points |
| EquityCurve.ReduceSelects | forven/backtest_api.py:210-217 | a reduced curve is an in-order selection that starts with the first point and ends on the last timestamp |
| EquityCurve.ReducedLength | forven/backtest_api.py:210-217 | more than 5000 points are reduced to between 5000 and 9999, and 9999 occurs |
| EquityCurve.ReducedFitsIff | forven/backtest_api.py:210-217 | a long curve fits in 5000 points if and only if its length is a multiple of 5000 and its last slot already carries the last timestamp |
| FoldCompounding.DailyCompoundConserves | forven/baseline_hurdle.py:69-75 | grouping bar returns by day keeps the total compounded growth, for every set of bars |
| FoldCompounding.BarsTelescope | forven/baseline_hurdle.py:151-160 | over a non-negative curve bar returns compound to last over start while equity stays positive and to zero once it has touched zero |
| FoldCompounding.FoldConserves | forven/baseline_hurdle.py:139-161 | hence the daily returns of one fold compound to what its equity says |
| FoldCompounding.StrategyDailyReturns | forven/baseline_hurdle.py:139-164 | the loop over folds yields the specified daily series, the first reading winning on a shared day |
| FoldCompounding.WalkForwardTotal | forven/baseline_hurdle.py:139-164 | for every list of folds, overlapping or not, the daily series compounds to the product over the folds of their bars on days no earlier usable fold has |
| FoldCompounding.WalkForwardConserves | forven/baseline_hurdle.py:139-164 | for folds that share no day that is the product of the growths their own equity curves show |
| FoldCompounding.WipedFoldWipesAll | forven/baseline_hurdle.py:157-159 | one fold that touched zero takes the whole walk-forward to -100% |
| TrendBaseline.PositionIsCausal | forven/baseline_hurdle.py:78-100 | the position of a day depends only on closes up to that day |
| TrendBaseline.BaselineIsCausal | forven/baseline_hurdle.py:103-121 | held positions, price changes and funding up to a day depend only on the data up to that day |
| TrendBaseline.NoLookAhead | forven/baseline_hurdle.py:103-124 | two histories that agree up to a day, missing closes included, give the same position, live mask and net return on every day up to it |
| TrendBaseline.PositionWithinLimits | forven/baseline_hurdle.py:90-100 | every position lies in [-2, 2] and on the side the trade mode allows |
| TrendBaseline.TradeModeIsRespected | forven/baseline_hurdle.py:92-96 | for every text of the trade mode, long-only texts never give a short position and short-only texts never a long one |
| TrendBaseline.CostsAreRateTimesTurnover | forven/baseline_hurdle.py:117-123 | over any horizon costs take exactly the cost rate times the turnover |
| TrendBaseline.DearerNeverHelps | forven/baseline_hurdle.py:117-123 | a higher cost rate never raises the total net return |
| TrendBaseline.PositionHasNoUnit | forven/baseline_hurdle.py:78-100 | quoting the asset in another unit changes neither positions nor the price changes they earn |
| LeastSquares.FitsDifferByNothing | forven/baseline_hurdle.py:167-178 | two best fits differ by a combination of the columns that vanishes on the sample |
| LeastSquares.AlphaIsDeterminedIff | forven/baseline_hurdle.py:174-178 | the best-fit promise determines alpha if and only if the intercept is independent of the kept columns |
| LeastSquares.ExposureIsNotAlpha | forven/baseline_hurdle.py:263-266 | adding any combination of kept regressors leaves alpha unchanged and moves the slopes by exactly that combination; a constant daily excess moves alpha by itself |
| LeastSquares.PureExposureScoresZero | forven/baseline_hurdle.py:263-266 | pure market exposure or a copy of the trend rule scores alpha 0, for every sample |
| LeastSquares.SolutionIsFit | forven/baseline_hurdle.py:175-190 | a solution on the kept columns is a best fit over all columns with zero slopes on the dropped ones |
| LeastSquares.FillSlopes | forven/baseline_hurdle.py:187-189 | the loop puts the kept coefficients back at their columns and leaves zero elsewhere |
| AlphaSignificance.CornerIsNonNegative | forven/baseline_hurdle.py:183 | the corner of the pseudo-inverse is never negative, so the variance of alpha is not |
| AlphaSignificance.CornerIsUnique | forven/baseline_hurdle.py:183 | the corner is determined by the design alone, also when columns are dependent |
| AlphaSignificance.TStatLaw | forven/baseline_hurdle.py:180-190 | the t-statistic times the standard error is alpha within [-99, 99], it saturates beyond, it has alpha's sign, and it is 0 without a measurable error |
| AlphaSignificance.ExposureKeepsTStat | forven/baseline_hurdle.py:263-266 | adding any combination of kept regressors leaves the t-statistic as it was |
| AlphaSignificance.Ols | forven/baseline_hurdle.py:167-190 | intercept and slopes returned are a best fit with dropped columns at zero, and the t-statistic is that of this fit |
| HurdleVerdict.EvidenceIsNeededToBlock | forven/baseline_hurdle.py:352-370 | a block without measured evidence never blocks a stage, under any configuration |
| HurdleVerdict.PassSurvivesLoosening | forven/baseline_hurdle.py:315-349 | a pass under stricter thresholds is a pass under looser ones |
| HurdleVerdict.ReclassifiesIff | forven/baseline_hurdle.py:330-336 | re-classifying a classified block agrees with classifying it afresh if and only if the first pass stored no reason of its own or the block is too short for the new thresholds anyway |
| HurdleVerdict.HistoryCountsIff | forven/baseline_hurdle.py:330-336 | the same after any number of settings changes: agreement if and only if no change ever stored a reason or the block is too short now |
| HurdleVerdict.StaleReasonCanHide | forven/baseline_hurdle.py:330-336 | thirty measured days classified when sixty were required stay insufficient when ten would do |
| HurdleVerdict.StaleReasonNeverDecides | forven/baseline_hurdle.py:330-336 | a stale reason never blocks and never passes what fresh evidence would not |
| SnapshotNames.SafeReasonIsCanonical | forven/backups.py:111-113 | every raw reason becomes a non-empty safe reason without edge dashes or underscores |
| SnapshotNames.CanonicalIsFixed | forven/backups.py:111-113 | canonical reasons are left unchanged |
| SnapshotNames.SafeReasonIsIdempotent | forven/backups.py:111-113 | sanitising twice is sanitising once |
| SnapshotNames.ParsePrinted | forven/backups.py:120-128 | parsing a printed snapshot name gives back exactly its reason |
| SnapshotNames.ParsedWasPrinted | forven/backups.py:120-128 | every name that parses was printed from that reason and some valid stamp, up to one final newline |
| SnapshotNames.NameOfRawReason | forven/backups.py:131-138 | a snapshot's name parses to its sanitised reason and to no other reason |
| SnapshotNames.PrintIsInjective | forven/backups.py:310-311 | different reason and stamp pairs have different file names |
| SnapshotStore.RetentionLimit | forven/backups.py:95-108 | the window is at least one, whatever argument, override or setting says |
| SnapshotSafety.UnlinkFrees | forven/backups.py:226-233 | deleting a managed snapshot frees exactly its bytes |
| SnapshotSafety.ByAgeSorts | forven/backups.py:169-181 | the sweep's queue is sorted by age with names breaking ties, and has no duplicates |
| SnapshotSafety.NewestIsKept | forven/backups.py:211-220 | the newest managed snapshot is always among the names the sweep spares |
| SnapshotSafety.SweepLaw | forven/backups.py:221-235 | a sweep deletes only queued files it may delete and goes on until the budget is met or nothing deletable is left |
| SnapshotSafety.EnforceLaw | forven/backups.py:184-235 | on any directory the ceiling removes only managed snapshots, never the newest, the protected or an undeletable one, and meets the budget or has removed all others |
| SnapshotSafety.EnforceIsOldestFirst | forven/backups.py:184-235 | of two deletable snapshots the newer goes only if the older goes, across reasons |
| SnapshotSafety.EnforceIsMinimal | forven/backups.py:221-235 | if anything was deleted, some deleted snapshot would not have fitted beside what is left |
| SnapshotSafety.PruneTouchesOneReason | forven/backups.py:265-287 | pruning a reason deletes exactly its excess that can be deleted; every other file stays |
| SnapshotRuns.PruneMeetsWindow | forven/backups.py:265-287 | after pruning a reason has exactly the smaller of its count and its window |
| SnapshotRuns.PruneKeepsTheNewest | forven/backups.py:265-287 | whatever snapshot of the reason went is older than whatever of it stayed |
| SnapshotRuns.CreatedLaw | forven/backups.py:290-338 | after a successful snapshot its file exists and is the newest, its reason is within its window, managed bytes are at most the larger of the ceiling and the file, and nothing new but the file appeared |
| SnapshotRuns.DefaultCeilingIsMet | forven/backups.py:152-166 | with the default ceiling a snapshot no larger than the live database leaves the directory within the ceiling itself |
| SnapshotRuns.RaisingLaw | forven/backups.py:238-262 | on every raising path the newest earlier snapshot is still there unless the failed copy took over its name, nothing is added, and no file of the target's name is left by a failed copy |
| SnapshotRuns.UnmanagedIsUntouched | forven/backups.py:290-338 | on every path, with any undeletable files, files outside the name grammar are exactly as before |
| SnapshotRuns.RunsKeepWindows | forven/backups.py:290-338 | over any run of successful and raising snapshots every reason stays within its window |
| SnapshotRuns.RunsKeepARecoveryPoint | forven/backups.py:184-220 | over any such run a directory that has a managed snapshot keeps having one |
| SnapshotDirectory.Directory.EnforceTotalSizeCeiling | forven/backups.py:184-235 | the deleting loop with its running total leaves exactly the specified directory |
| SnapshotDirectory.Directory.PruneManagedBackups | forven/backups.py:265-287 | the deleting loop over the excess leaves exactly the specified directory |
| SnapshotDirectory.Directory.CreateManagedDbBackup | forven/backups.py:290-338 | sweep, space check, copy, window and ceiling in order leave exactly the specified directory and outcome |
| IsoTime.PadValue | forven/ai_dropzone_sessions.py:59 | a zero-padded number reads back as itself |
| IsoTime.PadOrder | forven/ai_dropzone_sessions.py:48-59 | on zero-padded numbers of one width, text order is numeric order |
| IsoTime.FractionOrder | forven/ai_dropzone_sessions.py:44-45 | dropping a zero fraction keeps the order, because '+' sorts before '.' |
| IsoTime.IsoOrderIsTimeOrder | forven/ai_dropzone_sessions.py:44-45 | for all valid UTC instants the text order of their ISO forms is their order in time |
| DropZone.CreateSucceedsIff | forven/ai_dropzone_sessions.py:48-59 | a creation succeeds, with the next consecutive id, if and only if fewer than 10000 sessions exist |
| DropZone.OverflowOrder | forven/ai_dropzone_sessions.py:48-59 | the bound is tight: `ADZ-10000` sorts before `ADZ-9999` and differs from every four-digit id |
| DropZone.RunsNumberConsecutively | forven/ai_dropzone_sessions.py:86-97 | over every run sessions are numbered consecutively in creation order, the first 10000 creations succeeding and every later one being refused by the primary key |
| DropZone.IdsAreDistinct | forven/migrations.py:63-64 | no two sessions of any run share an id |
| DropZone.SweepClosesExactlyTheIdle | forven/ai_dropzone_sessions.py:159-179 | the sweep closes a session if and only if it is active and its last activity lies before the cutoff in time, and stamps its end |
| DropZone.RunsAreStamped | forven/ai_dropzone_sessions.py:133-185 | in every run every session carries ISO stamps of valid instants, so the sweep's rule applies to all of them |
| DropZone.ClosedIsForEver | forven/ai_dropzone_sessions.py:219-237 | over all runs closed is absorbing, `ended_at` is written once, and exactly the closed sessions have one |
| DropZone.TouchedSurvives | forven/ai_dropzone_sessions.py:133-156 | an active session touched at or after the cutoff survives the sweep |
| DropZone.SessionTable.CloseIdleSessions | forven/ai_dropzone_sessions.py:159-185 | afterwards no session is idle, and the number reported is by how many the closed sessions grew |
| DropZone.SessionTable.CreateSession | forven/ai_dropzone_sessions.py:72-119 | sweep first, then insert; an id is returned if and only if a row was added, and it is that row's |
| DropZone.SessionTable.TouchSession | forven/ai_dropzone_sessions.py:133-156 | a touched session is idle for no cutoff up to now; only activity stamps of the named session change, and none for a blank id |
| DropZone.SessionTable.CloseSession | forven/ai_dropzone_sessions.py:219-237 | the named session is closed unless it was already, and found if and only if it exists |
| ExceptionWalk.WalkExceptionChain | forven/ai.py:655-664 | the walk with its `seen` set terminates on every heap, cyclic ones included, and yields the specified nodes |
| ExceptionWalk.WalkIsExact | forven/ai.py:655-664 | it yields every reachable cause, each once, nearest first |
| ExceptionWalk.ScanCauses | forven/ai.py:606-632 | scanning the walk answers whether any cause, however far, says so |
| ExceptionWalk.IsRequestTooLarge | forven/ai.py:667-686 | a request is too large if and only if some reachable cause says so by status, response status or text |
| ExceptionWalk.IsRateLimit | forven/ai.py:597-632 | a rate limit is reported if and only if some reachable cause says so and none says the request was too large |
| FallbackChain.NextBudget | forven/ai.py:120-130 | the next budget is larger if and only if the ceiling is not reached, and then lies between floor and ceiling |
| FallbackChain.EscalationLaw | forven/ai.py:844-878 | an entry is asked at most three times, each time more and only after an empty truncated answer; its outcome is the last answer |
| FallbackChain.CallSingleWithBudgetRetry | forven/ai.py:844-878 | the loop terminates with that outcome and those requests |
| FallbackChain.PlanStaysInsideTheChain | forven/ai.py:759-786 | the plan holds exactly the credentialed ones among the requested pair and the operator's entries, each once, or one single entry when none is credentialed |
| FallbackChain.PlanOrder | forven/ai.py:942-953 | a credentialed requested pair leads and the operator's credentialed entries follow in their own order; when nothing is credentialed the plan is the requested pair alone |
| FallbackChain.CallAi | forven/ai.py:956-1008 | the loop over the chain returns or raises what the specification says and makes exactly its requests |
| FallbackChain.FirstSuccessWins | forven/ai.py:959-976 | the result is that of the first entry in chain order that succeeds |
| FallbackChain.RateLimitTakesPrecedence | forven/ai.py:977-1008 | when all fail, the last rate-limit error is raised if there was one, else the last error |
| FallbackChain.RequestsFollowThePlan | forven/ai.py:942-976 | from requested pair to requests: the entries asked are the plan's up to its first success, in plan order, each with its own rising budgets and at most three times; nothing but the requested pair and the operator's entries is asked |
| BookRouting.SettingsBlob.ApplyTwins | forven/api_core.py:1596-1608 | every twin key given is stored, none given changes nothing, and after a write the twins agree if and only if the payload does not set them apart |
| BookRouting.SettingsBlob.ResolveAddress | forven/api_core.py:1651-1663 | an address, stripped, changes only if requested and not locked, and unlocked it becomes what was requested |
| BookRouting.SettingsBlob.ResolveEnabled | forven/api_core.py:1644-1650 | books are disabled only on request and unlocked, and can always be enabled |
| BookRouting.SettingsBlob.ApplyRiskSection | forven/api_core.py:1596-1663 | one risk-section write leaves exactly the specified settings |
| BookRouting.LockedWriteKeepsRouting | forven/api_core.py:1641-1663 | under the lock no write changes where any book resolves or disables books |
| BookRouting.RunsStayRoutable | forven/api_core.py:1288-1304 | over any run of writes, opens and closes with working queries every open direction-book trade closes against the address it opened with |
| BookRouting.FailedQueryKeepsRoutableIff | forven/api_core.py:1288-1304 | when the trade query raises, all open trades stay routable if and only if the payload spares every direction book that has one |
| BookRouting.FailedQueryCanMisroute | forven/api_core.py:1303-1304 | a state and a payload where a failing query lets a write misroute an open trade |
| BookRouting.TwinsStayEqual | forven/api_core.py:1590-1608 | the two per-trade risk keys agree over every run whose writes do not set them apart on purpose |

## Left out

- Provider HTTP, payload formats, timeouts, back-off sleeps and cost computation: a provider is an arbitrary script of steps, failures and fallback answers.
- SQL, SQLite and database failures; JSON encoding of tool inputs; uuid generation (ids are row positions); tool calls with a null id.
- The wording of nudges, placeholders and confirm cards is abbreviated where only its presence matters.
- A cost cap that is changed while a turn is under way: each turn has one cap.
- RunsKeepPairing: holds while no turn runs under a higher cost cap than an earlier one; UnansweredIffCapped says exactly when a raised cap finds unanswered calls.
- Turns abandoned by the client are outside the run theorems; AbandonedTurnSettlesIff says exactly what one leaves behind.
- RunsAreApproved: confirmations are serialised, because status check and status write straddle an await.
- ActionsOff: `execute_tool`'s own permission checks are not part of this model; a call they refuse is a run whose output says so.
- Exceptions inside a turn other than a failing tool or invocation (a database error, say): RaisedAnywhereClosesOnce covers the events, not the rows left behind. Archiving and creating threads.
- `flock` and `msvcrt` (the lock is atomic and freed on exit), the health monitor, the reaper, and the duplicate-route assertion of the API.
- Unicode lower-casing and digits beyond ASCII in snapshot names.
- The ascending queue stands for the reversed newest-first listing; deletions that fail are a fixed set of names; `stat` failures, environment parsing and `disk_usage` are parameters.
- CreatedLaw: assumes that the new snapshot is younger than the others and that deletions succeed, as its promise needs; EnforceLaw and RaisingLaw hold with any undeletable files.
- RaisingLaw: takes the target's own name to be deletable, since otherwise a failed copy cannot be cleaned up.
- Floating-point rounding, NaN and infinities: reals with missing values. Square root, least-squares solver and the corner of the pseudo-inverse are parameters with their defining property; PositionWithinLimits needs the root non-negative and PositionHasNoUnit needs it to commute with scaling by squares.
- TrendBaseline: a missing close is padded or left missing in price changes, both being proved, because the pandas versions admitted by `pyproject.toml:51` differ there.
- `compute_baseline_hurdle`'s day alignment, coverage test and rounding; `_sharpe`; reading of thresholds from settings.
- Trade fields that are only copied (size, excursions, reasons) and the salvage of numbers from text.
- MaxDrawdown: bounds every loss only for non-negative equity; with negative equity the loss from a lower peak can be larger than from the running peak.
- Drop-zone labels, metadata, listing and detail; best-effort failures of the sweep and of touch; the cutoff is an instant, not a subtraction.
- `call_ai` with an explicit route or with fallback off, model-name normalisation and health recording; credentials are a predicate.
- IsRateLimit: its inlined copy of the walk is modelled by the shared scan.
- Other settings sections, the settings reset, and the daily-loss twins, which round.
- Strategy scheduling, policy gates, order execution and the rest of the API: parameters where a modelled part reads them.
