# Formal model of the trading engine's agreement logic

The engine keeps four records in agreement: the exchange's positions, the
database rows, what each strategy believes, and the control state in Redis. Reads
fail, Redis is emptied, orders fill short and processes restart. This project
models the code that keeps the records together and proves what it guarantees over
whole runs, for every answer the outside world may give.

Each component has a value-level step function, laws proved about it, and, where
the source updates objects in place, classes whose methods are proved to do what
the step function says.

| files | what they model |
|---|---|
| `Common.dfy`, `Traces.dfy` | shared vocabulary; runs of a step machine, invariants and latches over them |
| `RestoreGuard.dfy`, `RestoreGuardLaws.dfy`, `Control.dfy` | sentinel, reconcile hold and open gate; `BotControl` and `PortfolioManager` as objects |
| `Book.dfy`, `Reconcile.dfy`, `ReconcileLaws.dfy`, `Repository.dfy` | the book and its transactions; one reconcile pass against independent reads; the database object |
| `Signals.dfy`, `BookLaws.dfy`, `SignalLaws.dfy`, `ExposureLaws.dfy`, `PnlLaws.dfy`, `Runner.dfy` | opens, closes, flips, flat-all; book invariants, belief alignment, exposure, PnL; `EngineRunner` as an object |
| `Fills.dfy`, `FillLaws.dfy`, `FillLedger.dfy` | the fill ledger that prices closes |
| `Portfolio.dfy` | the daily PnL in two stores |
| `GuardMemory.dfy`, `PassLaws.dfy`, `Checks.dfy`, `Money.dfy`, `Pricing.dfy` | what the guard remembers, what a pass saw, what the order checks amount to, where the money goes and which fills price a close, each said of reads, sizes, prices and orders alone |
| `Alignment.dfy` | what leaves a strategy's row and belief alone, and what aligns it |
| `Engine.dfy` | guard, book, beliefs and daily PnL as one machine over whole runs |
| `Findings.dfy` | concrete inputs at which the engine breaks belief alignment or flat-all |
| `Funding.dfy`, `FundingLaws.dfy`, `FundingCounts.dfy`, `FundingTable.dfy` | funding pagination, and what it counts |
| `Outage.dfy`, `Paper.dfy`, `PaperLaws.dfy`, `PaperExchange.dfy`, `StrategyCap.dfy`, `Backtest.dfy` | smaller cores |

Amounts are exact reals; COVER_EPS, the dust sizes and the tolerances are constants.
Everything outside is a parameter: exchange reads, order replies, fills, prices,
which database and Redis operations succeed, clocks. A Redis write has three
endings: it lands, it fails, or it lands while the caller sees an error. A database
transaction is one step that succeeds or fails.

## Where the code and its promises differ

- `UnwrittenHoldHidesALoss`: `bot/hypertrade/engine/control.py:284-290` promises that a
  clear made before the runner saw Redis emptied leaves the loss to be found. That
  fails whenever something asked of Redis had not landed, or not been seen to land: a
  hold set by a human or by a pass, or a sentinel write whose answer was lost.
  `LossHiddenIff` says this is exactly when; `AnchoredIff` is the law for every clear.
- `UnwrittenHoldLostAtRestart`: a hold that was never written, with the sentinel
  present, is lost at a restart; `InForceIff` says this is exactly when a restart ends
  a block.
- `ShortFillOpensGate`: an orphan counts as resolved once its close filled at all, so a
  short fill opens the gate over the remainder; `LeavesNoOrphanIff` says exactly when
  nothing remains.
- `ClosedThoughBackedFirst`: a row the first read backs is closed on one read alone
  when another row made the pass look again; `ClosedWasUnbacked` is what does hold.
- `FlatAllLeavesARow`: flat-all uses one order id for every row of a coin while
  `trades.order_id` is unique, so of several rows only the first is closed;
  `FlatCoinClosesAllIff` is the exact condition.
- `FlatTradeCloses`: flat-all books each row of a coin as closed by its one order, so the
  trade's PnL is the cash of its own order exactly when the row is on the exchange
  position's side.
- `BookCloseAccountsIff`: a booked close keeps cash, PnL and open rows in account exactly
  when what it filled and what it leaves make up the row; what a close sized to the exchange's smaller
  holding never asked for, and what rounding the rest to size steps drops or adds, is
  missing from the account at the row's entry.
- `UnloadedGateForgets`: until the counter can be loaded, the daily-loss gate sees
  only the losses of its own process; `GateEnforcesTotal` says exactly when.
- `FlipRealignsBlindly`, `FlipCloseUnbooked`: flips that leave a strategy misaligned.
  `FlipLeavesAligned` has the exact condition: the row could be read and, from the close
  on, no fill met a failing write or a taken order id, and not (closed in full, parity
  failed, re-read failed). A close that filled but whose row could not be read is not
  booked and yet leaves the strategy aligned (`FlipCloseUnreadStaysAligned`).
- `PlainOpenRaises`, `PlainCloseUnread`: plain signals that leave a strategy believing in
  what the book does not say; `PlainOpenAligned` and `PlainCloseAligned` have the exact
  conditions, over what the call is given.
- `SubStepFillBreaksCap`: a close that fills less than half a size step of a row whose
  size rounds up to size steps leaves more on the row than it asked for, because the
  rest is rounded too; `UnfilledShrinksIff` is the exact condition. The exchange wrapper answers
  whole size steps only (`bot/hypertrade/exchange/hyperliquid.py:361-362`, and sizes the
  exchange reports), and then `WholeStepsLeaveNoMore` applies.
- `ToleranceSplitsUnlike`, `DustSplitsUnlike`: splitting a take changes its outcome when
  the tolerance covers the whole and not a part, or when a part drops a remainder below
  COVER_EPS; `TakeSplitsIff` says that nothing else can.
- `NegativeCurveDiffers`: below zero the running peak misses the largest pairwise fall;
  `PeakIsPairwiseIff` says when it does not.

## Model

| member | source | states |
|---|---|---|
| `RestoreGuardLaws.GateOpenIff` | bot/hypertrade/engine/runner.py:633-760 | Over every run of checks, passes, flushes, human sets and clears, key deletions and restarts, with every read and write allowed to fail: once a check has run since boot, the open gate is open exactly when some counting pass, under a clean check, held nothing this bot trades, and since then no check was unclean, no pass set the hold and nothing restarted |
| `RestoreGuardLaws.CleanCheckIff` | bot/hypertrade/engine/runner.py:742-760 | A check is clean exactly when it could read both keys, the sentinel is there, no hold key is set and no hold waits to be written |
| `RestoreGuardLaws.CheckAnswers` | bot/hypertrade/engine/runner.py:742-760 | And it answers "unreadable" exactly when it could not read the sentinel, or the hold key where it needed it |
| `RestoreGuardLaws.CountsIff` | bot/hypertrade/engine/runner.py:644-650 | Which passes count, by what they met: under a check that could read the state, readably not paused, the book read, the exchange read, and read again when a row was doubted, the closes committed and the rows read again, and every orphan free to close seen again and its close filled |
| `RestoreGuardLaws.PutsHoldIff` | bot/hypertrade/engine/runner.py:651-658 | Which passes set the hold: those under a clean check that ran to their end and met an orphan on a traded coin in a first pass or beside another |
| `RestoreGuardLaws.OpenGateMeansExchangeRead` | bot/hypertrade/engine/runner.py:644-650 | Whenever the gate is open, some pass since the process started really read the exchange and the book, and every check since was clean |
| `RestoreGuardLaws.PausedPassDoesNothing` | bot/hypertrade/engine/runner.py:612-635 | A pass of a bot that is paused, or may be, writes, orders, tells, counts and holds nothing |
| `GuardMemoryLaws.HoldUnwrittenIff` | bot/hypertrade/engine/control.py:281-302 | Over every run: a hold is remembered as unwritten exactly when the last write of it, asked for by a human, a check or a pass, was not seen to land, and no restart or clear that got through came since |
| `GuardMemoryLaws.SentinelUnwrittenIff` | bot/hypertrade/engine/control.py:258-271 | Over every run: a loss is remembered exactly when a check saw it and did not see hold and sentinel both land, and nothing has settled it since |
| `GuardMemoryLaws.KeysIff` | bot/hypertrade/engine/runner.py:772-814 | Over every run: each of the two keys is in Redis exactly when something wrote it and nothing has taken it since |
| `GuardMemoryLaws.AwaitingIff` | bot/hypertrade/engine/runner.py:695-712 | Opens wait for no pass exactly when one has counted since boot and no block has gone away since |
| `GuardMemoryLaws.ControlHoldIff` | bot/hypertrade/engine/runner.py:695-712 | A block is on record exactly when the last check since boot answered one or a pass has set the hold since |
| `GuardMemoryLaws.TicksIff` | bot/hypertrade/engine/runner.py:976-992 | Over a process's ticks a pass runs in the first and then exactly in those where five minutes have passed, a block has just gone, or opens wait and the bot is readably not paused |
| `GuardMemoryLaws.AskedIsInForce` | bot/hypertrade/engine/runner.py:651-658 | A hold asked for by a human, a check or a pass is in force at once, whether or not its write landed |
| `GuardMemoryLaws.HoldActiveIs` | bot/hypertrade/engine/control.py:273-279 | An unwritten hold answers held; an unreadable key answers nothing |
| `RestoreGuardLaws.OpenGateMeansOrphansFilled` | bot/hypertrade/engine/runner.py:644-663 | Whenever the gate is open, the pass that vouched for the book got a fill for every exchange position on a traded coin that no row covers; and if no orphan fill was short, nothing is left of any of them |
| `RestoreGuardLaws.LeavesNoOrphanIff` | bot/hypertrade/engine/runner.py:644-663 | A vouching pass leaves nothing of any traded orphan exactly when every fill it got was at least the orphan's size |
| `RestoreGuardLaws.ShortFillOpensGate` | bot/hypertrade/db/repo.py:1246-1258 | A concrete pass: one orphan, a fill of any smaller size, even none, and the gate is open over the remainder |
| `RestoreGuardLaws.ClearedTickNeedsPass` | bot/hypertrade/engine/runner.py:701-712 | When a hold was just cleared, a pass is due in that same tick, and the tick leaves the gate open only if that pass vouched for the book |
| `RestoreGuardLaws.PastFirstIff` | bot/hypertrade/engine/runner.py:635-649 | The bot stops treating passes as its first exactly when a pass has counted since the process started |
| `RestoreGuardLaws.OrphanOrdersAreGuarded` | bot/hypertrade/engine/runner.py:612-643 | In every run, a pass that sends an orphan-close order sends one, under its own clean check, readably unpaused, after an earlier pass counted since boot |
| `RestoreGuardLaws.AnchoredIff` | bot/hypertrade/engine/control.py:281-302 | A block that survives restarts (sentinel missing, or hold in Redis) ends exactly on an acknowledging clear or key deletion; on a lost state only a clear made after something the runner did failed to land acknowledges |
| `RestoreGuardLaws.LostStateBlocks` | bot/hypertrade/engine/runner.py:772-814 | From a flush on, until a human acknowledges, every check of every later process blocks opens and no pass closes an orphan, whatever fails |
| `RestoreGuardLaws.UnseenLossIsNotAcknowledged` | bot/hypertrade/engine/control.py:286-302 | While no check has read the missing sentinel and every hold asked for has landed, no number of clears, restarts or passes makes the loss go unnoticed |
| `RestoreGuardLaws.UnwrittenHoldHidesALoss` | bot/hypertrade/engine/control.py:291-301 | A run on which the code does not keep that promise: a human hold whose write failed, a flush and then a clear, all before the next check, reopen the gate and the loss is never noticed |
| `RestoreGuardLaws.LossHiddenIff` | bot/hypertrade/engine/control.py:291-301 | The exact condition, in any state: a flush and then a working clear before the next check go unnoticed just when something asked of Redis had not landed or not been seen to land, a hold set by a human or a pass, or a sentinel |
| `RestoreGuardLaws.ClearLeaves` | bot/hypertrade/engine/control.py:297-301 | A clear whose writes all land leaves a block in force exactly when the state is lost and nothing the runner did about it is pending |
| `RestoreGuardLaws.InForceIff` | bot/hypertrade/engine/control.py:291-301 | Exactly which events end a block in force: a restart when neither hold nor loss is in Redis, a deletion with the sentinel there and nothing unwritten, and a clear that gets through every write it needs; no failed write, flush, check or pass ever does |
| `RestoreGuardLaws.UnwrittenHoldLostAtRestart` | bot/hypertrade/engine/control.py:273-302 | A human hold whose write failed, and then a restart: the next check lets opens through |
| `RestoreGuardLaws.HoldIsEnforced` | bot/hypertrade/engine/control.py:273-302 | A hold someone asked for blocks every later check until it is ended, whether or not its write landed |
| `Controls.BotControl.SentinelPresent` | bot/hypertrade/engine/control.py:258-265 | Reads the sentinel and remembers whether it was missing; a failed read remembers nothing |
| `Controls.BotControl.WriteSentinel` | bot/hypertrade/engine/control.py:267-271 | Writes the sentinel; the missing mark goes only when the write is seen to land |
| `Controls.BotControl.IsReconcileHoldActive` | bot/hypertrade/engine/control.py:273-279 | An unwritten hold counts as held without reading |
| `Controls.BotControl.SetReconcileHold` | bot/hypertrade/engine/control.py:281-302 | Sets or clears the hold in place, with the exact state left by each write that fails or lands unseen |
| `Runners.EngineRunner.ReadControlState` | bot/hypertrade/engine/runner.py:742-760 | Step by step, the check leaves the state and the answer the guard machine says |
| `Runners.EngineRunner.SecureLostControlState` | bot/hypertrade/engine/runner.py:772-814 | Writes the hold, and the sentinel only once the hold landed |
| `Runners.EngineRunner.CheckControlState` | bot/hypertrade/engine/runner.py:695-727 | Updates the hold answer, the wait and the gate as the guard machine says, and touches no book, belief or order |
| `Runners.EngineRunner.RunReconcile` | bot/hypertrade/engine/runner.py:597-666 | A whole pass on the real objects: guard state, result, book, beliefs, orders and daily counter are those of the guard machine and of the reconcile pass |
| `Runners.EngineRunner.Conclude` | bot/hypertrade/engine/runner.py:644-663 | What a pass that did not raise does to the wait, the gate and the hold |
| `Runners.EngineRunner.GuardTick` | bot/hypertrade/engine/runner.py:976-992 | The check, and the pass when one is due, before any strategy runs |
| `Runners.EngineRunner.constructor` | bot/hypertrade/engine/runner.py:278-286 | A process starts waiting for its first pass, with nothing remembered and every strategy flat |
| `EngineRuns.EveryOpeningOrderIsVouched` | bot/hypertrade/engine/runner.py:1645-1665 | Over every run of ticks, signals, flips, closes, flat-alls, passes, flushes, human actions, restarts and new days: once a check has run since the process started, as the first thing of its first tick does, whenever an order goes out that may open or grow a position, a counting pass stands since the process started with only clean checks after it, the kill switch is off, and the day's total is within the limit when the counter is loaded or can be |
| `EngineRuns.EveryOpeningFollowsARead` | bot/hypertrade/engine/runner.py:644-650 | And only after a pass of this process really read the exchange and the book |
| `EngineRuns.EveryOpeningOrderIsAllowed` | bot/hypertrade/engine/runner.py:2100-2230 | And only for a signal with no other strategy's row in its way on the book it met, the open notional within the cap and a sized signal's notional within multiplier times maximum times leverage; the order is the signal's own |
| `EngineRuns.PausedPassChangesNothing` | bot/hypertrade/engine/runner.py:612-635 | A pass of a bot that is paused, or may be, changes no row, trade, belief, order or total |
| `EngineRuns.PassIsOne` | bot/hypertrade/engine/runner.py:599-663 | The pass the guard judges is the one the book went through; when the rows cannot be read there is none and nothing changes |
| `EngineRuns.GateIsAsked` | bot/hypertrade/engine/runner.py:1601-1665 | An open of a strategy already on that side meets no gate and touches neither Redis nor exchange; any other open whose row can be read loads the day's total when it can |
| `EngineRuns.FlushForgets` | bot/hypertrade/engine/portfolio.py:60-107 | A flush leaves the running process its own total and a restart after it nothing |
| `EngineRuns.OpeningWithinTrueTotal` | bot/hypertrade/engine/portfolio.py:209-245 | And without a flush that total is the one the trace gives: the PnL of the trades booked that day less what restarts took |
| `EngineRuns.CounterFollowsBook` | bot/hypertrade/engine/runner.py:1963-1985 | Over any stretch of a run without a flush, a restart or a new day the day's total, in memory and Redis together, moves by exactly the PnL of the trades booked in it, whichever handovers to Redis fail |
| `EngineRuns.RunStaysSound` | bot/hypertrade/engine/runner.py:1622-1635 | In every state of every run of the whole engine the book is orderly and order ids are unique |
| `EngineRuns.GateOpenIff` | bot/hypertrade/engine/runner.py:633-760 | In the whole engine too the gate is open exactly when a vouching pass stands |
| `EngineRuns.RestartAligns` | bot/hypertrade/engine/runner.py:508-528 | A restart puts every strategy that trades one coin back in line with the book, however misaligned it was |
| `EngineRuns.AlignedIff` | bot/hypertrade/engine/runner.py:2443-2466 | Over every run of the whole engine, whatever other strategies do: a strategy that trades one coin believes in exactly the position the book holds if and only if no misleading signal of its own came after the last event that aligned it (a restart, an aligning signal, or flat-all or a pass closing its row), or after the start if it was aligned then |
| `AlignmentLaws.SignalAligned` | bot/hypertrade/engine/runner.py:1583-1820 | Whether an open, a flip or a close leaves its strategy aligned is decided by the book it meets and by what it meets, not by the belief before |
| `AlignmentLaws.OthersLeaveAlone` | bot/hypertrade/engine/runner.py:1583-1820 | A signal of one strategy changes no row and no belief of another |
| `AlignmentLaws.OutsideAligns` | bot/hypertrade/engine/runner.py:1417-1456 | Flat-all and reconcile leave a strategy that trades one coin aligned when they close its row, and otherwise as they found it |
| `SignalLaws.BookStaysOrderly` | bot/hypertrade/engine/runner.py:1622-1635 | In every reachable state, with signals, flips, short fills, flat-all and reconcile in any order: order ids unique, at most one open row per strategy and coin, never both sides of a coin |
| `SignalLaws.BookStaysExclusive` | bot/hypertrade/engine/runner.py:2105-2165 | With allow_multi_coin off throughout, also at most one row per coin and one holding strategy per family |
| `ExposureLaws.ExposureStaysCapped` | bot/hypertrade/engine/runner.py:2167-2192 | If opens fill no larger and no dearer than checked and no close leaves more on its row than it asked for, total open notional stays within the cap in every reachable state |
| `ExposureLaws.UnfilledShrinksIff` | bot/hypertrade/engine/runner.py:2075-2085 | What a close leaves open is never below nothing, and at most what it asked for if and only if it filled all, or the request rounds to no more than itself, or more than half a size step filled, or exactly half of one and the rounded request is an odd number of steps |
| `ExposureLaws.WholeStepsLeaveNoMore` | bot/hypertrade/engine/runner.py:2075-2085 | A fill of at least one size step always leaves no more than was asked for |
| `Findings.SubStepFillBreaksCap` | bot/hypertrade/engine/runner.py:2075-2085 | A close that fills a tenth of a size step of a row of six tenths: the row grows to a whole step, past the exposure cap |
| `SignalLaws.FlipLeavesAligned` | bot/hypertrade/engine/runner.py:1645-1755 | A flip attempt leaves the strategy believing in exactly the position the book holds if and only if the row could be read and, once the close is reached, no fill met a failing write or a taken order id and not (the row closed in full, parity failed and the row could not be re-read); all of it read off the inputs |
| `SignalLaws.FlipCloseIds` | bot/hypertrade/engine/runner.py:2365-2441 | The close half is a divergence exactly when it filled, its row could be read and the fill cannot be booked; it lets the flip go on exactly when it closed in full with parity, and then adds just its own order id |
| `SignalLaws.FlipProtocol` | bot/hypertrade/engine/runner.py:1645-1769 | A flip sends nothing, its reduce-only close, or that and then its open; the open exactly when the risk gate, the other gates and the leverage push passed and the close filled with no remainder, was booked and parity held; a refusal before the close changes no order and no row |
| `SignalLaws.FlipCloseOutcome` | bot/hypertrade/engine/runner.py:2365-2441 | The close half closes the row, or leaves the strategy aligned outside the one failing family |
| `SignalLaws.FlipCloseAligns` | bot/hypertrade/engine/runner.py:2443-2466 | Re-reading the row aligns the strategy exactly when it could be read or the row is still there |
| `SignalLaws.ClosedIff` | bot/hypertrade/engine/runner.py:1767-1830 | A close succeeds exactly when it was read, filled, booked, left no remainder and parity held; it ends with the row gone but unverified exactly when only parity failed |
| `SignalLaws.CloseOutcome` | bot/hypertrade/engine/runner.py:2937-3057 | What any close attempt leaves: row gone and belief untouched, strategy aligned, or nothing changed; and the one reduce-only order it sends |
| `SignalLaws.PlainOpenAligned` | bot/hypertrade/engine/runner.py:1804-1820 | A plain open leaves the strategy aligned exactly when its row could be read and it was refused before sending, or filled with a working write and a fresh order id |
| `SignalLaws.PlainCloseAligned` | bot/hypertrade/engine/runner.py:2937-3057 | For any book: a plain close leaves the strategy aligned exactly when it has no row, or a row on that side that could be read, an order that did not raise, and a fill that can be booked or a refusal that can be classified: nobody shares the coin, and it is still held and definitely refused, or gone, with a working write and unspent fills or a mid to price it |
| `Findings.FlipRealignsBlindly` | bot/hypertrade/engine/runner.py:2443-2466 | A flip at which the strategy is put back on a row its booked close removed |
| `Findings.FlipCloseUnbooked` | bot/hypertrade/engine/runner.py:1822-1985 | A flip whose filled close could not be written leaves the strategy misaligned |
| `Findings.FlipCloseUnreadStaysAligned` | bot/hypertrade/engine/runner.py:1822-1985 | A flip whose filled close could not read its row is not booked and stays aligned with the old row |
| `Findings.PlainOpenRaises` | bot/hypertrade/engine/runner.py:1757-1803 | A plain open whose order raises leaves a belief in a position nobody has |
| `Findings.PlainCloseUnread` | bot/hypertrade/engine/runner.py:1822-1985 | A plain close that filled and could not read its row: never booked, the row open, the strategy believing it is flat |
| `Findings.FlatAllLeavesARow` | bot/hypertrade/engine/runner.py:1417-1456 | From the empty book through two stacked opens, a flat-all that meets a working database leaves one row open with the position gone |
| `SignalLaws.RefusedOpenOnlyReduces` | bot/hypertrade/engine/runner.py:1645-1685 | With the risk gate shut an open signal sends at most a reduce-only close |
| `SignalLaws.NextSound` | bot/hypertrade/engine/runner.py:1583-1820 | Each engine event keeps the book sound, and exclusive unless it allows stacking |
| `CheckLaws.ParityIff` | bot/hypertrade/engine/runner.py:2520-2586 | Parity in sizes: with the rows of a coin on one side, the exchange must hold within ten steps and half a percent of their total on that side, a position on the other side counts against it in full, and a parity that cannot be read passes |
| `CheckLaws.CloseSizeIs` | bot/hypertrade/engine/runner.py:2886-2907 | A close is for the row's size, or for the exchange's smaller holding on that side when that can be read |
| `CheckLaws.RefusedIff` | bot/hypertrade/engine/runner.py:2100-2235 | An open is refused exactly when another strategy's row is on the other side of the coin, or without stacking on the coin or in the family, or the open notional with it exceeds a cap that is set, or a sized signal asks for more margin than its ceiling |
| `CheckLaws.OpeningWasAllowed` | bot/hypertrade/engine/runner.py:1645-1804 | An open sends its order only when every gate could be read, it was not refused on the book it met, and the leverage push worked |
| `CheckLaws.OpenSucceedsIff` | bot/hypertrade/engine/runner.py:1757-1820 | An open reports success exactly when its order went out and filled, the strategy has the row, and parity held |
| `CheckLaws.CloseSucceedsIff` | bot/hypertrade/engine/runner.py:2937-3057 | A close reports success exactly when there was a row on its side, and it was closed in full with parity |
| `CheckLaws.PausedIff` | bot/hypertrade/engine/runner.py:1990-2000 | Over every run the engine asks for a pause exactly when some open or close filled and could not be booked |
| `BookLaws.FindExact` | bot/hypertrade/db/repo.py:476-488 | On an orderly book a strategy's row is found exactly when it has one, and the lookup never meets two |
| `BookLaws.OpeningKeepsOrder` | bot/hypertrade/engine/runner.py:2105-2165 | A row every gate accepted keeps the book orderly, and exclusive when stacking is off |
| `BookLaws.ReconcileIdIs` | bot/hypertrade/db/repo.py:1335-1390 | A reconciled close takes the fill's order id when no trade has it, and else a generated one no trade has |
| `BookLaws.ClosedRowsAre` | bot/hypertrade/db/repo.py:331-460 | A booked close moves the row to the closed ones with its price and PnL, unless it leaves a rest, which stays open |
| `PnlLaws.CounterMatchesBook` | bot/hypertrade/engine/runner.py:1963-1985 | In every reachable state the daily counter was given exactly the PnL of the trades in the book, by signal, flip, external close, flat-all or reconcile |
| `MoneyLaws.CashIsAccounted` | bot/hypertrade/engine/runner.py:1963-1985 | Over every run in which each close fills and leaves what makes up its row: the cash a strategy's trades moved is the PnL booked for it before closing fees plus what its open rows cost; once it is flat, its PnL is its net cash less closing fees |
| `MoneyLaws.BookCloseAccountsIff` | bot/hypertrade/engine/runner.py:1822-1985 | A booked close keeps that account exactly when what it filled and what it leaves make up the row |
| `MoneyLaws.FillTradeCloses` | bot/hypertrade/reconcile/fills.py:430-441 | The PnL of a booked close, with its fee, is the cash of its own reducing order and of opening the same size at the row's entry |
| `MoneyLaws.FlatTradeCloses` | bot/hypertrade/engine/runner.py:1417-1436 | So is that of a row closed by flat-all exactly when the row is on the side of the exchange position |
| `MoneyLaws.RowTradeCloses` | bot/hypertrade/db/repo.py:829-858 | So is that of a row reconcile closes |
| `Common.RealizedIsRoundTrip` | bot/hypertrade/reconcile/fills.py:430-441 | Realised PnL plus fee is the cash of buying and selling, or selling and buying back |
| `PnlLaws.FlatCoinClosesAllIff` | bot/hypertrade/engine/runner.py:1417-1456 | Flat-all books every row of a coin under one order id, which one trade can carry: for any number of writes the database takes, it succeeds exactly when that is at least one and the coin has at most one row, and never closes more than the first |
| `PnlLaws.FlatCoinSucceedsIff` | bot/hypertrade/engine/runner.py:1358-1466 | A coin counts as flattened exactly when its rows could be read, the order filled under a fresh id, the database took the write, and at most one row was on it |
| `Runners.EngineRunner.ExecuteClose` | bot/hypertrade/engine/runner.py:1770-1793 | A close on the real objects is the value-level close: book, beliefs, orders and counter |
| `Runners.EngineRunner.BookClose` | bot/hypertrade/engine/runner.py:1822-1985 | A filled close is booked at its filled size, the rest stays on the row and the strategy goes back on it |
| `Runners.EngineRunner.CloseLeftOpen` | bot/hypertrade/engine/runner.py:2937-3057 | A refused or empty close: untouched beside another row or when unreadable, booked as external when two reads agree nothing is held, else the strategy is put back on its row |
| `Runners.EngineRunner.ExecuteOpen` | bot/hypertrade/engine/runner.py:1583-1820 | An open on the real objects is the value-level open; the gate lets it through only with the hold free, the kill switch off and, when the counter is loaded, the true daily total within the limit; a held gate sends only reduce-only orders |
| `Runners.EngineRunner.FlipClose` | bot/hypertrade/engine/runner.py:2365-2441 | The close half and its alignment, on the real objects |
| `Runners.EngineRunner.AlignStrategyAfterFailedFlipClose` | bot/hypertrade/engine/runner.py:2443-2476 | Re-reads the row and aligns the strategy with it |
| `Runners.EngineRunner.SendOpen` | bot/hypertrade/engine/runner.py:1757-1820 | The opening order, its row, and the reset when a flip ends flat |
| `Runners.EngineRunner.FlatAllCoin` | bot/hypertrade/engine/runner.py:1358-1466 | One coin of flat-all: the reduce-only order, then its rows one after the other until a write fails |
| `Runners.EngineRunner.OnReconcileClose` | bot/hypertrade/engine/runner.py:889-908 | Resets the strategy and adds the PnL to the day's total |
| `ReconcileLaws.ClassifyExact` | bot/hypertrade/db/repo.py:920-934 | The close candidates are exactly the open rows with no exchange position or one on the other side, each once |
| `PassLaws.UnbackedIff` | bot/hypertrade/db/repo.py:920-934 | A row is a candidate exactly when the last position the read lists on its coin is not on its side |
| `PassLaws.CompletesIff` | bot/hypertrade/db/repo.py:1031-1186 | A pass runs to its end exactly when it is no dry run, the exchange answered, twice when a row was doubted, and where something could be priced the commit and the second read of the rows worked |
| `PassLaws.ResolvesIff` | bot/hypertrade/db/repo.py:1186-1258 | It leaves nothing unresolved exactly when the one traded orphan it may close, if there is one, was shown again and its close filled |
| `PassLaws.HoldsTradedIff` | bot/hypertrade/db/repo.py:120-137 | It holds a traded orphan exactly when there is one under a hold or beside another |
| `PassLaws.DryRunReports` | bot/hypertrade/db/repo.py:1096-1104 | A dry run reports exactly the rows a real pass would take for closing |
| `PassLaws.OrphansBook` | bot/hypertrade/db/repo.py:1252-1290 | Beyond its closes a pass books only filled orphans: at the answered price, or the position's entry, with the taker fee and no PnL, under an order id no trade had |
| `ReconcileLaws.PassWithoutAnswerDoesNothing` | bot/hypertrade/db/repo.py:1031-1095 | A failed read, a dry run or a failed commit leaves rows, trades and orders unchanged and tells nobody |
| `ReconcileLaws.PassClosesIff` | bot/hypertrade/db/repo.py:1060-1130 | Exactly which rows a pass closes: it is done for real, its first read misses some row, the confirming read does not back this one, and unspent fills or a mid can price it |
| `ReconcileLaws.ClosedWasUnbacked` | bot/hypertrade/db/repo.py:1060-1082 | A closed row was unbacked on the confirming read: that read was made, worked, and shows no position on the row's side |
| `ReconcileLaws.ClosedThoughBackedFirst` | bot/hypertrade/db/repo.py:1060-1095 | Only the confirming read decides: a row backed on the first one is closed too when another row made the pass look again |
| `ReconcileLaws.CandidateIsClosed` | bot/hypertrade/db/repo.py:1106-1130 | In a completed pass a candidate left open has no mid price and is reported |
| `ReconcileLaws.UnpriceableStaysOpen` | bot/hypertrade/db/repo.py:1117-1127 | A row nothing can price is reported and stays open |
| `ReconcileLaws.PassOneBooks` | bot/hypertrade/db/repo.py:1131-1170 | Exactly the planned rows leave the open rows; each gains exactly one trade of equal size and reducing side; row, trade and callback carry the PnL of the price used; order ids stay unique |
| `ReconcileLaws.PassCutShort` | bot/hypertrade/db/repo.py:1172-1186 | When the second read of the open rows fails after the closes committed, the closes stand and are told, and nothing is ordered, held or filled |
| `ReconcileLaws.PlanExact` | bot/hypertrade/db/repo.py:758-826 | Pricing splits the candidates into priced rows, each with the PnL of its own price and fee, and rows with no mid |
| `ReconcileLaws.OrphanCloseSafety` | bot/hypertrade/db/repo.py:1172-1250 | At most one order is sent in a pass: reduce-only, on a traded coin, never under a hold or pause, closing an orphan a second read showed on the same side and, within dust, size, among the same orphans |
| `ReconcileLaws.OrphansPartition` | bot/hypertrade/db/repo.py:1198-1310 | Every orphan ends in exactly one of held, unresolved and filled, and nothing else does |
| `ReconcileLaws.OrphansHeldExactly` | bot/hypertrade/db/repo.py:120-137 | An orphan is held exactly under a hold, on a coin nobody here trades, or with another orphan on a traded coin |
| `ReconcileLaws.CleanPassFillsTraded` | bot/hypertrade/engine/runner.py:644-650 | A completed pass with nothing unresolved and nothing held on a traded coin got a fill for every orphan on a traded coin, and nothing of one is left exactly when its fill covers its size |
| `Repositories.Repository.ReconcilePositions` | bot/hypertrade/db/repo.py:964-1309 | The pass, step by step on the database object, failing reads, commits and second reads included, leaves the book and the result of the pass function |
| `Repositories.Repository.PriceRows` | bot/hypertrade/db/repo.py:1106-1130 | Pricing from one ledger, each fill spent once and each mid read once, gives the planned and the unpriceable rows |
| `Repositories.Repository.PriceClose` | bot/hypertrade/db/repo.py:758-826 | Own fills first, else the mid marked as an estimate, else nothing |
| `Repositories.Repository.ApplyPlan` | bot/hypertrade/db/repo.py:1131-1156 | Closes the planned rows with one trade each, and says whom to tell |
| `Repositories.Repository.CloseRowPriced` | bot/hypertrade/db/repo.py:829-858 | Closes one row by id with its trade; a row that is gone writes nothing |
| `Repositories.Repository.InsertReconcileTrade` | bot/hypertrade/db/repo.py:1333-1389 | A taken fill id falls back to a generated one |
| `Repositories.Repository.ClosePassTwo` | bot/hypertrade/db/repo.py:1172-1309 | Holds, defers or closes each orphan |
| `Repositories.Repository.CloseRowExternally` | bot/hypertrade/db/repo.py:860-887 | Books a row closed outside the bot at the price reconcile would use, or writes nothing |
| `Repositories.Repository.RecordTradeAndOpenPosition` | bot/hypertrade/db/repo.py:271-326 | Trade and row in one transaction; a taken order id writes neither |
| `Repositories.Repository.RecordTradeAndClosePosition` | bot/hypertrade/db/repo.py:328-392 | Trade and close in one transaction; a short fill shrinks the row instead |
| `Book.CloseRowKeepsConsistent` | bot/hypertrade/db/repo.py:1333-1389 | Closing a row keeps order ids unique and row ids a key |
| `Book.CloseKeepsConsistent` | bot/hypertrade/db/repo.py:328-392 | So does booking a close |
| `Book.OpenKeepsConsistent` | bot/hypertrade/db/repo.py:271-326 | So does booking an open |
| `Fills.TakeSucceedsIff` | bot/hypertrade/reconcile/fills.py:329-337 | Coverage is all or nothing, and this is exactly when it is all |
| `PriceLaws.TakenMatches` | bot/hypertrade/reconcile/fills.py:396-413 | Whatever a take draws from a fill, that fill is on the coin, sells a long or buys back a short, and is not older than asked; a take that fails draws nothing |
| `PriceLaws.TakeSucceedsOnUnspent` | bot/hypertrade/reconcile/fills.py:329-337 | A take succeeds exactly when what is unspent of those fills covers its size within tolerance |
| `PriceLaws.LedgerOffers` | bot/hypertrade/reconcile/fills.py:383-395 | What a pass can draw for a position is the sizes of exactly the fetched fills that are usable, not booked and matching |
| `PriceLaws.TakePriceBetween` | bot/hypertrade/reconcile/fills.py:355-364 | Its price lies between the prices of two such fills it drew from |
| `PriceLaws.TakeBooksDrawn` | bot/hypertrade/reconcile/fills.py:339-380 | It books the size it drew, and of each fill's fee the part drawn |
| `PriceLaws.TakeIsNamed` | bot/hypertrade/reconcile/fills.py:339-380 | It carries the order id of the oldest fill it drew from that has one |
| `PriceLaws.PassPricesFairly` | bot/hypertrade/db/repo.py:758-826 | Every row a pass closes is priced between fetched fills that close it, are not older than it and not booked yet, or estimated at the coin's mid with the taker fee |
| `Fills.DrawBounds` | bot/hypertrade/reconcile/fills.py:335-352 | A draw is oldest first, never more than an entry has or than is asked for, and within COVER_EPS of all there is |
| `Fills.SummarySize` | bot/hypertrade/reconcile/fills.py:314-364 | The matched size is within tolerance of the request |
| `Fills.SummaryPrice` | bot/hypertrade/reconcile/fills.py:355-364 | The price lies between the cheapest and the dearest fill used |
| `Fills.TakesConserve` | bot/hypertrade/reconcile/fills.py:396-413 | Over any sequence of takes, the size, notional and fees handed out are exactly what left the ledger |
| `Fills.TakesPerFill` | bot/hypertrade/reconcile/fills.py:396-413 | And fill by fill: what is missing of each entry is what the successful takes drew from it, never more than it had |
| `Fills.FreshLedgerConserves` | bot/hypertrade/reconcile/fills.py:381-413 | From a fresh ledger: nothing excluded is spent, no fill gives more than its size, and every booked amount is pro-rated from fills |
| `Fills.SortCommutesWithKeep` | bot/hypertrade/reconcile/fills.py:217-257 | The stable sort commutes with filtering |
| `FillLaws.FreshTakeIsSummary` | bot/hypertrade/reconcile/fills.py:416-424 | A fresh ledger's take is the summary of the selected fills, for every fill list, exclusion set and opening time |
| `FillLaws.TakesCommute` | bot/hypertrade/reconcile/fills.py:405-413 | Takes on different coins or sides commute: same summaries, same ledger |
| `FillLaws.TakeSplitsIff` | bot/hypertrade/reconcile/fills.py:335-364 | For every ledger and every two sizes: taking a and then b is taking a + b, with the same success, ledger left, size, notional and fees, if and only if the whole is covered within tolerance exactly when both parts are and the remainders dropped below COVER_EPS add up |
| `FillLaws.TakeSplitsWithoutDust` | bot/hypertrade/reconcile/fills.py:329-352 | Where the first take drops no remainder the tolerances alone decide, as an inequality on what is available |
| `FillLaws.TakeSplitsOnGrid` | bot/hypertrade/reconcile/fills.py:335-364 | On sizes and remainders in whole exchange steps coarser than the tolerance every split is lawful |
| `FillLaws.ToleranceSplitsUnlike` | bot/hypertrade/reconcile/fills.py:329-337 | A ledger that covers the whole and not the second part |
| `FillLaws.DustSplitsUnlike` | bot/hypertrade/reconcile/fills.py:335-352 | A ledger where all three takes succeed and the ledgers left differ |
| `FillLedgers.FillLedger.constructor` | bot/hypertrade/reconcile/fills.py:381-394 | The object holds the parsed, sorted, unexcluded fills |
| `FillLedgers.FillLedger.Take` | bot/hypertrade/reconcile/fills.py:396-413 | Spending in place returns the summary and leaves the ledger the value-level take says |
| `FillLedgers.ConsumeEntries` | bot/hypertrade/reconcile/fills.py:314-364 | The drawing loop computes price, size, fee and first order id of the draw, and commits only on success |
| `Portfolio.StepRefines` | bot/hypertrade/engine/portfolio.py:60-144 | Redis and memory together refine one number: a record adds to the day's total, a crash falls back to what Redis has, and nothing is written before a load |
| `Portfolio.CounterIsTotal` | bot/hypertrade/engine/portfolio.py:60-144 | Over every run, against totals defined on the trace alone (a crash takes what was recorded since the last write of a process that had read Redis): loaded, memory is the day's total; not loaded, Redis plus memory is; Redis is what a crash would leave |
| `Portfolio.RecoveryMakesSafe` | bot/hypertrade/engine/portfolio.py:108-144 | A record or check whose load and write work leaves the true total in Redis |
| `Portfolio.PendingIff` | bot/hypertrade/engine/portfolio.py:108-137 | Over every run a write is pending exactly when a record was not seen to land by a process that had read Redis, and no write has been since |
| `Portfolio.GateEnforcesTotal` | bot/hypertrade/engine/portfolio.py:209-245 | With the kill switch readably off, or unset and off by default, and nothing held, the daily-loss gate enforces the true total whenever the counter is loaded or can be; an unreadable switch refuses every open; with a blown total an open passes exactly while it cannot be loaded and this process alone lost too little |
| `Portfolio.UnloadedGateForgets` | bot/hypertrade/engine/portfolio.py:209-245 | A restart that cannot read Redis lets opens through on a day already past its limit |
| `Controls.PortfolioManager.EnsureLoaded` | bot/hypertrade/engine/portfolio.py:60-106 | A load adds what was recorded meanwhile to the stored total |
| `Controls.PortfolioManager.Persist` | bot/hypertrade/engine/portfolio.py:108-144 | Writes only after a load; a failed write stays pending |
| `Controls.PortfolioManager.RecordPnl` | bot/hypertrade/engine/portfolio.py:247-250 | The day's total moves by exactly the PnL, wherever it is kept |
| `Controls.PortfolioManager.CheckRiskLimits` | bot/hypertrade/engine/portfolio.py:209-245 | Never changes the day's total; opens need kill switch off, gate open and counter within limit, closes always pass |
| `FundingLaws.CompleteMeansAllStored` | bot/hypertrade/engine/funding.py:226-270 | With a strict fetch, a complete ingest has stored every storable event the exchange showed from the start time on |
| `FundingLaws.AddedIsGrowth` | bot/hypertrade/engine/funding.py:158-223 | What an ingest reports as new is what the table gained, even cut short, and no stored payment changes |
| `FundingCountLaws.GainIsReported` | bot/hypertrade/engine/funding.py:158-223 | What the table gained is the events reported as new, as many and of that amount, each stored with its own amount and attribution, even when the ingest is cut short |
| `FundingCountLaws.ReadIsCounted` | bot/hypertrade/engine/funding.py:158-223 | The events counted, and their amount, are those read, each once; on a page that could not be written, they are counted without having been stored |
| `FundingCountLaws.EndsHow` | bot/hypertrade/engine/funding.py:250-270 | Told by its last fetch, an ingest raises exactly when that failed or brought an unread event that could not be stored, and is incomplete exactly when that brought a full page which did not move on, or the last of a page limit |
| `FundingCountLaws.IngestEndsWell` | bot/hypertrade/engine/funding.py:226-270 | An ingest raises only where something fails, and is incomplete only at its page limit or where a full page ends where it was asked from |
| `FundingCountLaws.CandidateIff` | bot/hypertrade/db/repo.py:563-593 | The positions asked for beforehand are those that held a coin of the page at some time on it |
| `FundingLaws.DryRunPredicts` | bot/hypertrade/engine/funding.py:200-216 | A dry run writes nothing and predicts every count and amount of the real run |
| `FundingLaws.RerunAddsNothing` | bot/hypertrade/engine/funding.py:226-270 | Once everything visible is stored, a rerun inserts nothing and counts nothing as new |
| `FundingLaws.PollsLeaveNoGap` | bot/hypertrade/engine/runner.py:2804-2834 | After any sequence of polls, interrupted, page-limited or stopped in one millisecond, on a growing history, the table has no gap below its newest payment |
| `FundingLaws.TurnProgress` | bot/hypertrade/engine/funding.py:254-268 | The cursor strictly rises and stays within the history, so paging ends |
| `FundingLaws.PageHasOlder` | bot/hypertrade/engine/funding.py:8-11 | A page holds everything asked for that is older than something on it, whatever the history gains later |
| `Funding.PrefilterIsHarmless` | bot/hypertrade/engine/funding.py:112-137 | Asking the database only for positions that overlap a page changes no attribution |
| `Funding.AttributedIsPaid` | bot/hypertrade/engine/funding.py:112-137 | A payment is attributed only to the strategy of the one position held then, or with several of the one on the side the paid size was on |
| `Funding.PaidIsAttributed` | bot/hypertrade/engine/funding.py:112-137 | And always to that one |
| `FundingTables.IngestFunding` | bot/hypertrade/engine/funding.py:226-270 | The paging loop on a table in place ends in the table, counts and outcome of the ingest function |
| `FundingTables.ReadPage` | bot/hypertrade/engine/funding.py:158-182 | The events not read before, each key once, and the newest storable time |
| `FundingTables.FundingTable.InsertFundingPayments` | bot/hypertrade/db/repo.py:515-548 | Inserts exactly the missing keys and returns them |
| `Outage.WindowMirrors` | bot/hypertrade/engine/runner.py:1210-1297 | Tick by tick, an alert is sent exactly when a failing block first lasts the threshold, naming everyone who failed in it so far |
| `Outage.OneAlertPerLongBlock` | bot/hypertrade/engine/runner.py:1210-1297 | As many alerts as maximal failing blocks that lasted the threshold |
| `Outage.SendsOnePerLongBlock` | bot/hypertrade/engine/runner.py:1210-1297 | And that many is what the aggregator sends over any ticks |
| `Outage.NoBlockAlertsTwice` | bot/hypertrade/engine/runner.py:1266-1280 | No block alerts twice |
| `Outage.OffMeansSilent` | bot/hypertrade/engine/runner.py:1268-1272 | Without a positive threshold nothing is sent |
| `Outage.OutageAggregator.SettleFetchOutage` | bot/hypertrade/engine/runner.py:1210-1297 | The fields updated in place follow the window function |
| `PaperLaws.BooksBalance` | bot/hypertrade/exchange/paper.py:195-266 | Over any positive-size orders and price moves: cash plus longs less shorts at entry is the initial balance plus realised less fees |
| `PaperLaws.MarketOrderCostsFee` | bot/hypertrade/exchange/paper.py:133-190 | A market order changes equity by exactly its fee, or nothing when rejected |
| `PaperLaws.FillMovesNet` | bot/hypertrade/exchange/paper.py:195-266 | Open, add, cut, close or flip: the coin's signed size moves by exactly the order's |
| `PaperLaws.FillLeaves` | bot/hypertrade/exchange/paper.py:195-266 | Only the order's coin changes |
| `PaperLaws.ReduceOnlyShrinks` | bot/hypertrade/exchange/paper.py:153-168 | A reduce-only order never opens, grows or turns a position, and is rejected exactly where it could not shrink one |
| `PaperLaws.OrderPays` | bot/hypertrade/exchange/paper.py:133-190 | An order without a positive price is rejected; one that is not reduce-only pays or brings that price for its whole size, and the fee |
| `PaperLaws.ListedAsOpened` | bot/hypertrade/exchange/paper.py:195-266 | Positions stay listed in the order they were opened; one that turns goes last |
| `PaperExchanges.PaperExchange.HandleBuy` | bot/hypertrade/exchange/paper.py:195-230 | Covering, flipping and adding, leg by leg, is one fill |
| `PaperExchanges.PaperExchange.HandleSell` | bot/hypertrade/exchange/paper.py:232-266 | The mirrored procedure is the same fill |
| `PaperExchanges.PaperExchange.PlaceOrder` | bot/hypertrade/exchange/paper.py:133-190 | Rejects without a price and where reduce-only cannot shrink; else fills |
| `StrategyCap.HoldersSurvive` | bot/hypertrade/strategy_cap.py:115-290 | A strategy holding a position is never newly disabled nor dropped, whatever cannot be read or written |
| `StrategyCap.TrimMeetsCap` | bot/hypertrade/strategy_cap.py:229-290 | After the trim, however many writes fail, no more strategies run than the cap allows or hold positions already |
| `StrategyCap.BlindTrimMeetsCap` | bot/hypertrade/strategy_cap.py:105-112 | So without Redis |
| `StrategyCap.OptedInGoFirst` | bot/hypertrade/strategy_cap.py:233-243 | No opted-in flat strategy is trimmed while one not opted in keeps running |
| `StrategyCap.RegistryOrderKept` | bot/hypertrade/strategy_cap.py:115-290 | What runs stays in registry order |
| `StrategyCap.SurplusIff` | bot/hypertrade/strategy_cap.py:229-250 | A strategy is surplus exactly when it holds nothing and, counting holders, then those that may trade, then the rest, each in registry order, at least as many stand ahead of it as the cap allows or hold positions |
| `StrategyCap.TrimIs` | bot/hypertrade/strategy_cap.py:262-290 | A surplus strategy is disabled where the write got through, and not run where it was not seen to; nothing else changes |
| `StrategyCap.BlindTrimIs` | bot/hypertrade/strategy_cap.py:198-214 | Without Redis a strategy runs when it holds a position, or off mainnet when fewer than the cap stand ahead of it; nothing is disabled |
| `StrategyCap.NoTrimIs` | bot/hypertrade/strategy_cap.py:165-205 | Without a cap or the positions nothing is trimmed; under a malformed cap only holders run |
| `StrategyCap.SecondBootChangesNothing` | bot/hypertrade/strategy_cap.py:115-290 | Once every disable landed, a second boot from the same state changes nothing |
| `StrategyCap.StrategySwitches.EnforceStrategyCap` | bot/hypertrade/strategy_cap.py:115-290 | The trim on the disabled set, written strategy by strategy, is the cap function |
| `Backtest.ReplayAccounted` | bot/hypertrade/backtest/runner.py:173-291 | For every candle and signal sequence: equity is initial plus closing PnL less opening fees, fees paid are the trades' fees, and signed sizes add up to the open position |
| `Backtest.MarkedIsCash` | bot/hypertrade/backtest/runner.py:173-291 | At any mark a run is worth what was put in, plus what its orders received, less what they paid and the fees, plus the open position at the mark |
| `Backtest.SignalLeaves` | bot/hypertrade/backtest/runner.py:190-309 | An open leaves a position on its side and does nothing when there is one; a close leaves none and does nothing without one on its side |
| `Backtest.ReplayPricesWell` | bot/hypertrade/backtest/runner.py:190-309 | Over every sequence of bars, each trade fills at a close moved against it by the slippage, pays the fee rate on its notional, and an opening one is for the configured notional |
| `Backtest.TakeSignal` | bot/hypertrade/backtest/runner.py:190-291 | Each of the six arms, the two inline flips included, is close, open, or close and then open |
| `Backtest.RunBacktest` | bot/hypertrade/backtest/runner.py:124-328 | The loop is the replay after warm-up, with the curve marked before each signal and the final equity at the last close; no candles is an error |
| `Backtest.CurveAt` | bot/hypertrade/backtest/runner.py:178-187 | Each point of the curve marks the position the bars before it left |
| `Backtest.MaxDrawdownPct` | bot/hypertrade/backtest/metrics.py:22-36 | On every curve, the largest fall from the peak so far; it is the largest fall over all ordered pairs exactly when no fall to a point below zero is larger |
| `Backtest.PeakIsPairwiseIff` | bot/hypertrade/backtest/metrics.py:22-36 | The running-peak drawdown is the pairwise one exactly when no fall to a point below zero is larger |
| `Backtest.NegativeCurveDiffers` | bot/hypertrade/backtest/metrics.py:22-36 | A curve with a negative point where the two differ |

## Left out

- HTTP API, Telegram, event bus, dashboard, log lines and the wording of alerts: I/O; the lost-state alert queue, the hold reminders and the refusal notes feed back into nothing that is modelled.
- The HyperLiquid wrapper: replaced by an exchange that may answer, refuse, fill short or raise at will.
- Database sessions, migrations and row-level security: each transaction is one atomic step.
- Indicators and strategy logic: a strategy is its believed side, which it sets itself when it emits a signal; restoring a snapshot is assumed to work.
- Rejected-close streaks and the wide price band: they change an order's slippage and which alerts go out, not what is booked.
- The leverage push: a parameter that says whether it succeeded.
- The retries of the startup restore and its pending-restore pause: a restart restores every belief from the open rows, which can be read; the runs of `Signals.dfy` alone have no restart.
- Failed writes of the pause flag: the model records that a pause was asked for.
- Interleavings inside a tick: the engine is sequential, so human and Redis events fall between steps.
- Modes without a database or without BotControl, malformed numbers, tenants and time zones.
- Backoff delays between two reads: only that the reads are independent.
- Grouping rows by coin is a function, not the dictionary loop of the source, so the order within a pass is modelled but the dictionary is not.
- Parsing of raw fills, funding records and the cap's text: the model starts from parsed records, with unusable ones marked.
- Reporting metrics other than the drawdown.
- ExposureLaws.ExposureStaysCapped: takes the sizes fills report as given; that the exchange never fills an open larger or dearer than asked is assumed, and the condition on closes is the exact one of ExposureLaws.UnfilledShrinksIff.
- EngineRuns.EveryOpeningOrderIsVouched: in its runs the PnL of one event reaches the daily counter as the event's last step; a restart in the middle of an event is not modelled.
- MoneyLaws.CashIsAccounted: takes it of each close that fills that its fill and rest make up the row, whose exact role is MoneyLaws.BookCloseAccountsIff; the names under which the engine books its own closes ("manual_flat", "reconcile") are no strategy's.
- Runners.EngineRunner.RunReconcile: the close callbacks run after the whole pass instead of between its two halves, which touch different state.
