# paper_dex core in Dafny

paper_dex is a paper-trading exchange for perpetual futures. Users get a mock USDC
balance and open long or short positions with 1x to 10x leverage. They can do this
directly, with market or limit orders, or with stop-loss orders attached to a position.
Prices come from a live order book, or else from the latest one-minute candle. Trades
from the feed are folded into OHLCV candles in three places:

- a server buffer that is flushed to the candle table;
- the trade-ingest route;
- the chart client.

The chart merges realtime candles into the candles loaded from the database. A
recent-trades list shows the newest trades.

This project models and proves that core:

- **Margin engine** (`Ledger`, `Oracle`, `Orders`, `CancelOrder`, `OpenPosition`,
  `ClosePosition`, `MatchOrders`, `LiquidationService`).
  - The database is a class, `Ledger.Exchange`. It holds the user accounts, the order,
    position and trade tables, and the balance history.
  - Each route is one atomic method on it. A refused request leaves the state as it was.
  - Every method keeps the ledger invariant `Ledger.Consistent`. For every user, the
    total balance is the available balance plus the locked margin. The locked margin
    is exactly the margin of the user's positions plus the margin reserved by the
    user's open orders.
  - The route-specific promises are proved on top of that invariant: the match pass
    ends calm, place-then-cancel restores the balances, a close settles exactly its
    P&L, and a liquidation loses exactly the margin.
- **Candle folding** (`Candles`, shared by the next three modules). This covers the
  per-trade fold (start, absorb), the summary of a bucket's trades and its meaning,
  the database upsert rule, bucketing, and insertion-order listing and sorting of
  buckets.
- **Server candle buffer** (`CandleAggregator`). A class with the buffer, the timer
  flag and the in-flight flag. It covers adding trades, start/stop, cleanup, and the
  two halves of a flush.
- **Trade ingest route** (`TradesRoute`). It covers normalisation (a loop), the
  one-minute candle builder (a loop over a map), the insert that skips rows already
  stored, and the candle upsert.
- **Chart aggregation** (`ChartUtils`). It covers interval widths, the client
  aggregator (a loop), and the repair step.
- **Chart merge** (`ChartData`). A class with the candles, the baseline time and the
  processed-trade count. The merge loop is proved against a fold `MergeAll`.
- **Recent-trades list** (`RecentTrades`). A class with the list, the id counter and
  the current symbol.

The loops of the source that fold, normalise, merge or clean up are `while` loops
whose invariants tie them to a specification function (`Candles.Accumulate`,
`TradesRoute.NormalizedOf`, `ChartData.MergeAll`, `CandleAggregator.Recent`), and the
properties are proved about those functions. The two loops of the match pass carry
bookkeeping predicates instead (`MatchOrders.Progress`, `MatchOrders.Tally`,
`MatchOrders.Outcomes`, `MatchOrders.Swept`): which rows are visited and settled, what
each row has become against the reference decision `MatchOrders.Decide`, which stops
were canceled and why (`MatchOrders.Fates`, `MatchOrders.Closes`,
`MatchOrders.Cancellations`), and what the counts, tables and balances have become. The liquidation tick keeps the same kind of
bookkeeping in `LiquidationService.Ticked`.
The chart's sort is the recursive insertion sort `Candles.SortBy`, and its repair
`map` is a sequence comprehension applying `ChartUtils.Repair`.

## Model

| member | source | states |
|---|---|---|
| Ledger.LiquidationPrice | app/api/orders/route.ts:9-12 | for a positive entry and leverage ≥ 1, a long's liquidation price lies in [0, entry) and a short's in (entry, 2·entry] |
| Ledger.NewPosition | app/api/orders/match/route.ts:134-149 | for a positive entry and leverage ≥ 1, a new position is not breached at its own entry price |
| Ledger.BehindNotReached | app/api/orders/route.ts:226-240 | a level that passes the "below the market for a long, above for a short" rule is not reached at the market price, so an accepted limit or stop does not execute on the spot |
| Ledger.PnlSign | app/api/positions/close/route.ts:103 | a long profits exactly when the exit is above the entry, a short exactly when it is below; the two sides' results are opposite |
| Ledger.Pnl | app/api/positions/close/route.ts:103 | the relative price move times the size, negated for a short; its meaning is stated by `Ledger.PnlSign` and `Ledger.LiquidationLosesMargin` |
| Ledger.LiquidationLosesMargin | app/api/orders/match/route.ts:340-341 | closing at the liquidation price loses exactly size / leverage, the margin the match pass books as the loss |
| Ledger.ParseRowId | app/api/orders/cancel/route.ts:40-43 | a non-finite id is refused; a fractional id, or an integral one outside the `bigint` key range, fails the query (the route's catch at line 121-124); the id names a row exactly when it is an integer in [0, 2^63), and then it is that row's index |
| Ledger.Reserve | app/api/orders/route.ts:251-261 | reserving moves the margin from available to locked and leaves the total unchanged |
| Ledger.Release | app/api/orders/cancel/route.ts:92-105 | releasing keeps the total, raises available by the margin and leaves locked ≥ 0; when locked covered the margin, available + locked is unchanged |
| Ledger.ReleaseUnclamped | app/api/positions/close/route.ts:115-131 | the close route's unclamped release keeps the total and the sum available + locked |
| Ledger.Realize | app/api/positions/close/route.ts:115-131 | a realized P&L reaches the total and the available balance but never the locked margin |
| Ledger.ReleaseUndoesReserve | app/api/orders/cancel/route.ts:92-105 | reserving and then releasing the same margin restores the available balance, and the whole account when locked was not negative |
| Ledger.PositionAdded | app/api/positions/open/route.ts:152-160 | appending a position adds its margin to its owner's held sum and nothing to anyone else's |
| Ledger.PositionRemoved | app/api/positions/close/route.ts:178 | deleting a position takes its margin off its owner's sum only |
| Ledger.OrderAdded | app/api/orders/route.ts:265-277 | appending an order adds what it reserves |
| Ledger.OrderReplaced | app/api/orders/cancel/route.ts:107-112 | replacing an order row changes each user's reserved sum by the difference of the two rows |
| Ledger.BalancedSound | app/api/orders/cancel/route.ts:92 | in a balanced account locked ≥ 0, available ≤ total, and locked covers each position and open order of the user |
| Ledger.ClampNeverFires | app/api/orders/match/route.ts:236 | in a consistent database the clamp at zero never fires for margin the user holds |
| Ledger.SettleKeepsConsistent | app/api/positions/close/route.ts:115-178 | deleting a position and writing its owner the released and rebalanced account keeps the database consistent |
| Ledger.Rebalance | app/api/orders/route.ts:251-277 | a table change that touches only `u`'s held margin, with a new balanced account for `u`, keeps the database consistent |
| Ledger.CancelStops | app/api/orders/match/route.ts:289-297 | the open stop orders linked to the position (of the given owner, other than the one kept) become canceled with the reason, every other row is unchanged, and no such stop is left open |
| Ledger.CancelStopsKeepsMargin | app/api/orders/match/route.ts:289-297 | canceling linked stops keeps the tables well formed and every user's reserved margin, only moves rows out of the open state, and leaves non-stop rows unchanged |
| Ledger.AddPositionKeepsTables | app/api/positions/open/route.ts:104-111 | adding a well-formed position to a free (user, symbol, side) slot keeps positions unique per slot |
| Ledger.AddOrderKeepsTables | app/api/orders/route.ts:265-277 | appending a well-formed order keeps the tables well formed |
| Ledger.SetOrderKeepsTables | app/api/orders/match/route.ts:151-160 | rewriting an order row with a well-formed row keeps the tables well formed |
| Ledger.RemovePositionKeepsTables | app/api/orders/match/route.ts:287 | deleting a position keeps the tables well formed |
| Ledger.EvolvedTransitive | app/api/orders/match/route.ts:76-316 | order rows that only leave the open state and keep their terms stay so across successive steps |
| Ledger.Exchange.constructor | app/api/auth/verify/route.ts:42-50 | each user starts with total and available equal to the balance it is given and nothing locked; all tables are empty and the database is consistent (the column defaults that credit a new user are a parameter) |
| Oracle.CandleClose | app/api/orders/route.ts:41-54 | the fallback yields the latest candle close exactly when it is finite |
| Oracle.Fresh | app/api/orders/route.ts:32-35 | the book is present with a finite timestamp less than 10 s old; the price rules state what it selects |
| Oracle.EntryPrice | app/api/orders/route.ts:14-54 | on a fresh book a long pays the finite ask and a short receives the finite bid; a stale book, or a fresh one whose preferred side is not finite, gives the candle close |
| Oracle.ExitPrice | app/api/positions/close/route.ts:7-47 | a stale book gives the candle close; a fresh book gives the finite bid, else the finite ask, else the candle close |
| Oracle.MarkPrice | services/liquidationService.ts:16-57 | a stale book gives the candle close; a fresh two-sided book gives the mid (bid + ask) / 2; a one-sided book gives that side; an empty one the candle close |
| Oracle.MarkBetweenEntryPrices | services/liquidationService.ts:36-38 | on an uncrossed fresh book the mark lies between what a short receives and what a long pays |
| Oracle.NoDataNoPrice | app/api/orders/route.ts:51 | without a fresh book or a finite candle close, every rule yields no price |
| Orders.CheckRequest | app/api/orders/route.ts:152-169 | the stateless guards in source order: symbol, order type, size ≥ 10, leverage in [1, 10], limit price, stop price |
| Orders.Admit | app/api/orders/route.ts:177-249 | adds the guards that read the tables and the oracle: no position on the slot, user present, margin ≤ available, market data, limit and stop direction |
| Orders.AdmittedOrderIsQuiet | app/api/orders/route.ts:218-249 | an admitted order's margin is positive and at most its size, and it does not execute at the price it was checked against |
| Orders.Place | app/api/orders/route.ts:132-397 | a refused request changes nothing; a limit order reserves its margin and rests; a market order opens its position and logs a filled order and a stop child; the ledger stays consistent |
| Orders.LimitPlaced | app/api/orders/route.ts:251-277 | an admitted limit order that reserves its margin and rests keeps the database consistent |
| Orders.MarketPlaced | app/api/orders/route.ts:306-370 | an admitted market order that locks its margin, opens its position and logs a filled row and a stop child keeps the database consistent |
| Orders.ClampLimit | app/api/orders/route.ts:93-94 | an absent or non-finite limit means 200, otherwise it is clamped into [1, 500] |
| Orders.ParseStatus | app/api/orders/route.ts:95-98 | the status filter defaults to open and rejects unknown statuses |
| Orders.NewestFirst | app/api/orders/route.ts:108-124 | the ids listed are exactly the matching rows, strictly newest first |
| Orders.List | app/api/orders/route.ts:79-127 | an unknown status or unsupported symbol is refused; a clamped limit that is not a whole number fails the query; otherwise the answer is a prefix of the matching rows newest first, of length min(limit, number of matches) |
| CancelOrder.Cancel | app/api/orders/cancel/route.ts:28-117 | a non-finite id, a missing or foreign order, a non-open order, or a reserving order of an unknown user is refused with no change; otherwise exactly that order is canceled and its reservation released to its owner |
| CancelOrder.PlaceThenCancel | app/api/orders/cancel/route.ts:74-112 | placing a limit order and canceling it restores every account exactly, for an order id inside the `bigint` key range |
| CancelOrder.ReserveThenRelease | app/api/orders/cancel/route.ts:90-101 | releasing a positive reservation right after reserving it gives back the accounts exactly; a zero reservation changes nothing |
| OpenPosition.Admit | app/api/positions/open/route.ts:71-135 | success exactly when every guard passes (symbol, size ≥ 10, leverage in [1, 10], market data, free slot, user present, margin ≤ available), with the entry price as result; a finite size under 10 is refused as too small |
| OpenPosition.Open | app/api/positions/open/route.ts:54-175 | a refused request changes nothing; otherwise the margin is reserved, the position and a history row are added, and the ledger stays consistent |
| OpenPosition.OpenNeverOverdraws | app/api/positions/open/route.ts:93-135 | an open keeps the available balance non-negative, and the margin lies between a tenth of the size and the size |
| ClosePosition.ResultKind | app/api/positions/close/route.ts:156-172 | a non-negative result is booked as a profit, a negative one as a loss |
| ClosePosition.Close | app/api/positions/close/route.ts:49-190 | a refused request changes nothing; otherwise P&L is realized, the margin released, the trade and two history rows logged and the position deleted, with the ledger consistent |
| ClosePosition.CloseSettlement | app/api/positions/close/route.ts:101-131 | the total moves by the P&L, available by margin + P&L, and locked drops by the margin without going negative |
| LiquidationService.MarkOf | services/liquidationService.ts:73-74 | a missing or zero mark counts as none |
| LiquidationService.Liquidate | services/liquidationService.ts:111-160 | the owner loses the margin from total and locked, available is unchanged, the trade is logged and the position deleted, and the ledger stays consistent |
| LiquidationService.LiquidationKeepsAvailable | services/liquidationService.ts:111-127 | a liquidation leaves available alone, lowers total and locked by the same amount, and keeps locked non-negative |
| LiquidationService.Tick | services/liquidationService.ts:62-174 | positions are only deleted, and only when liquidatable at their mark; after a completed tick none left is liquidatable; available balances and orders are unchanged; the trades appended are exactly one liquidation trade per deleted position, in id order, carrying its user, symbol, side, entry, size, margin and leverage with P&L minus the margin (`Removed`, `TickTrade`); the history grows by one row per liquidation, each recording minus the margin and the owner's available balance and pointing at its trade (`Logged`) |
| LiquidationService.TickLoop | services/liquidationService.ts:66-171 | the loop stops early only on a missing account, and its state after it is the bookkeeping of `Ticked` for the rows it visited |
| LiquidationService.TickRow | services/liquidationService.ts:72-160 | visiting one row either liquidates it (deleting it, logging its trade and history row, and counting it) or leaves everything alone, and keeps `Ticked` one row further |
| LiquidationService.TickedStep | services/liquidationService.ts:111-160 | deleting a liquidatable row, charging its owner, appending its `TickTrade` and a history row that points at it keeps the tick's bookkeeping, with the count one higher |
| LiquidationService.TickedSkip | services/liquidationService.ts:72-98 | a row that is not liquidated (or already deleted) leaves the bookkeeping as it was, one row further |
| LiquidationService.TickedEnds | services/liquidationService.ts:62-174 | the bookkeeping unfolds to the tick's promises: deletions only of liquidatable rows, the trades equal to `Removed`, the history one logged row per liquidation |
| LiquidationService.RemovedFrame | services/liquidationService.ts:111-160 | the liquidation trades of the first rows depend only on those rows |
| LiquidationService.RemovedUntouched | services/liquidationService.ts:72-81 | rows not yet visited add no liquidation trade |
| MatchOrders.LinkedPosition | app/api/orders/match/route.ts:182-210 | a stop resolves to the row it links to, and does so exactly when that row is a live position of the user |
| MatchOrders.OpenIds | app/api/orders/match/route.ts:57-69 | the ids read are exactly the user's open orders on the symbol, oldest first |
| MatchOrders.Retire | app/api/orders/match/route.ts:79-97 | the order gets its terminal status and reason; with a release, its reservation returns to available; no other row and no position changes, so no stop is closed (`Closes`) |
| MatchOrders.FillLimit | app/api/orders/match/route.ts:133-176 | the position opens with the order's reserved margin still locked, the order is filled and linked, and a positive attached stop becomes a stop child |
| MatchOrders.TriggerStop | app/api/orders/match/route.ts:225-316 | the position is closed at the mark (margin released, P&L realized), its trade and two history rows are logged and it is deleted; the stop is filled at the mark and the position's other open stops are canceled |
| MatchOrders.LiquidateInPass | app/api/orders/match/route.ts:337-397 | the whole margin is lost, the trade and history are logged, and the position and its stops are removed |
| MatchOrders.TriggerKeepsConsistent | app/api/orders/match/route.ts:225-316 | settling a position through its triggered stop, filling the stop and canceling its sibling stops keeps every account balanced against the tables |
| MatchOrders.TriggerEvolves | app/api/orders/match/route.ts:288-313 | the trigger's order updates only move rows out of the open state, leave the stop filled at the mark, and touch no row that is not a stop |
| MatchOrders.LiquidationKeepsConsistent | app/api/orders/match/route.ts:337-397 | a liquidation that loses the whole margin and cancels the position's stops keeps every account balanced against the tables |
| MatchOrders.SettledStable | app/api/orders/match/route.ts:76-316 | rows that only leave the open state keep settled rows settled |
| MatchOrders.QuietStable | app/api/orders/match/route.ts:200-225 | deleting and appending positions keeps a quiet stop quiet |
| MatchOrders.DormantStable | app/api/orders/match/route.ts:180-225 | quietness of all open stops survives the pass's table changes |
| MatchOrders.VisitLimit | app/api/orders/match/route.ts:77-176 | one open limit order at the mark: with an invalid price it is rejected INVALID_LIMIT and a positive reservation released; when the mark has not reached the price nothing changes; when reached and the user already holds the symbol it is rejected POSITION_EXISTS and its reservation released; otherwise one position opens at the limit price with the reserved margin, size and leverage, the order is filled at its price and linked to the new row, and the balances are unchanged; no other row is closed (`Closes`); the ledger stays consistent and the counts report the fill or rejection |
| MatchOrders.VisitStop | app/api/orders/match/route.ts:180-316 | one open stop at the mark: an invalid stop is rejected INVALID_STOP and one without a live linked position canceled ORPHAN_STOP, with nothing else changed; on a live position it triggers exactly when the mark reaches its stop price, closing that position at the mark with the effect of `FireStop`, the order table becoming exactly `CancelStops` of the filled stop on that position with "Position closed by stop trigger", and otherwise nothing changes; every other row that changes is an open stop closed with that reason because its position was deleted (`Closes`); the ledger stays consistent and the counts report the trigger or rejection |
| MatchOrders.FireStop | app/api/orders/match/route.ts:225-316 | a reached stop on a live position: the position is deleted, its margin released and P&L at the mark realized, one closing trade at the mark is logged for it, and the order table is exactly the stop filled at the mark with every other open stop linked to the position canceled "Position closed by stop trigger" (`CancelStops`), so each changed row is such a stop (`Closes`) |
| MatchOrders.VisitRow | app/api/orders/match/route.ts:77-316 | a snapshot row ends as `Decide` says for the positions it meets (rests, fills, or is rejected or canceled with the source's reason; `Becomes`), and the positions become `After` of them: a new row at the limit price for a limit fill, the linked row deleted for a stop trigger; a resting row leaves the order table as it was; the row is left or given its verdict (`Verdicted`), and every other row that changes is an open stop canceled "Position closed by stop trigger" because the visit deleted its position (`Closes`); the counts are one exactly when the row ends filled or rejected, and trades grow by triggers with the total moving by their P&L |
| MatchOrders.ProgressStep | app/api/orders/match/route.ts:76-316 | visiting one more snapshot row keeps the loop's bookkeeping, the rows' fates (`Fates`) included |
| MatchOrders.Visit | app/api/orders/match/route.ts:75-316 | one iteration keeps the ledger consistent and advances the loop's bookkeeping past the row, including every row's fate so far (`Fates`: unchanged, given its verdict, or a stop canceled "Position closed by stop trigger" because its position was deleted); the row's outcome is `Decide` on the positions it meets and the positions become `After` of them; the snapshot rows filled and rejected grow by exactly the fills and rejections it reports |
| MatchOrders.TallyStep | app/api/orders/match/route.ts:76-316 | the loop's tally (snapshot rows filled and rejected, positions, trades, realized P&L) advances by one iteration's increments |
| MatchOrders.Step | app/api/orders/match/route.ts:76-316 | one iteration of the order loop keeps every loop invariant one row further, the per-row outcomes (`Outcomes`) and the positions built so far (`PositionsAt`) included |
| MatchOrders.OutcomesStep | app/api/orders/match/route.ts:76-316 | recording one more row's `Decide` outcome and applying `After` to the positions extends the per-row outcomes one row, even when later rows were canceled meanwhile |
| MatchOrders.OutcomesCancel | app/api/orders/match/route.ts:385-393 | cancellations of stops keep every recorded outcome |
| MatchOrders.LeveredTables | app/api/orders/match/route.ts:133-176 | in well-formed tables every limit order has a non-zero leverage, so its fill can size a position |
| MatchOrders.OrderLoopStarts | app/api/orders/match/route.ts:57-76 | before the first row the bookkeeping, tally, outcomes and fates hold trivially over the snapshot |
| MatchOrders.ProgressDone | app/api/orders/match/route.ts:75-316 | once every snapshot row is visited, no open row of the user on the symbol is left for the pass and every open snapshot stop is quiet |
| MatchOrders.OrderLoop | app/api/orders/match/route.ts:76-316 | after the loop every snapshot row of the user on the symbol has the outcome `Decide` gives it on the positions built by the rows before it, and the positions are those built by all of them; every order row is unchanged, given its verdict, or a stop canceled "Position closed by stop trigger" because the loop deleted its position, and no open stop is left on a position the loop deleted (`Fates`); the tables evolved only as the pass allows and the ledger is consistent; the fill and rejection counts are the snapshot rows that became filled and rejected, trades grow by triggers and `u`'s total by their P&L |
| MatchOrders.LiquidationLoop | app/api/orders/match/route.ts:319-398 | every position row becomes its `Survivor`: deleted exactly when it is the user's on the symbol and breached at the mark, kept otherwise; the trades appended are the `LiquidationTrades` of those rows in id order (each losing its whole margin at the liquidation price); history grows by one row per liquidation; the only order rows changed are open stops of the user canceled "Position liquidated" because their position was deleted, and none of the user's open stops is left on a deleted position (`Closes`); the total moves by the trades' P&L |
| MatchOrders.SweepRow | app/api/orders/match/route.ts:330-398 | one position row is liquidated exactly when it is the user's on the symbol and breached at the mark, and then the row is deleted and the order table is exactly `CancelStops` of the user's stops on it with "Position liquidated"; otherwise no order or position changes; the sweep's bookkeeping (`Swept`) advances one row; one trade and one history row are logged per liquidation |
| MatchOrders.PassMatched | app/api/orders/match/route.ts:75-398 | an order loop with its outcomes and fates followed by a sweep that leaves the survivors, logs the liquidation trades and closes only the user's stops on the positions it deleted makes the pass `Matched` |
| MatchOrders.Loops | app/api/orders/match/route.ts:75-398 | the two loops together evolve the tables only as the pass allows, end calm with every snapshot stop quiet, count the fills, rejections, triggers and liquidations of the tables, and leave the pass `Matched`, each changed order row accounted for by `Cancellations` |
| MatchOrders.PassComposes | app/api/orders/match/route.ts:75-398 | the two loops together evolve the tables only as the pass allows and end calm, with every snapshot stop quiet; the liquidation loop's cancellations leave the filled and rejected counts as the order loop left them |
| MatchOrders.RealizedPnlSplit | app/api/orders/match/route.ts:315-397 | the P&L of the trades logged across two successive appends is the sum of the two runs' P&L |
| MatchOrders.BecameNone | app/api/orders/match/route.ts:76-316 | before any row changes, no snapshot row has become filled or rejected |
| MatchOrders.BecameSame | app/api/orders/match/route.ts:289-297 | rows whose having-the-status is unchanged leave the count of snapshot rows with that status unchanged |
| MatchOrders.BecameStep | app/api/orders/match/route.ts:151-160 | when only one open snapshot row may reach a status, the count grows by one exactly when it does |
| MatchOrders.CancelStopsOnlyCancels | app/api/orders/match/route.ts:289-297 | canceling linked stops only moves open rows to canceled |
| MatchOrders.CancelsOnlyTransitive | app/api/orders/match/route.ts:385-393 | two rounds of cancellations are one |
| MatchOrders.ClosesQuiet | app/api/orders/match/route.ts:79-176 | a step that deletes no position, touches no row but its own and appends only rows linked to new positions closes no stop |
| MatchOrders.ClosesTransitive | app/api/orders/match/route.ts:385-393 | two rounds of closing stops with one reason and owner are one, when deleted positions stay deleted |
| MatchOrders.ClosesTrigger | app/api/orders/match/route.ts:288-313 | filling stop `k` and canceling the position's other open stops "Position closed by stop trigger" changes exactly the open stops linked to the deleted position, and leaves none open on it |
| MatchOrders.ClosesLiquidation | app/api/orders/match/route.ts:383-395 | canceling the user's open stops on a liquidated position "Position liquidated" changes exactly those stops, and leaves none of the user's open on it |
| MatchOrders.FatesStep | app/api/orders/match/route.ts:75-316 | a visit that leaves its row or gives it its verdict and otherwise only closes stops on the position it deleted keeps every row's fate |
| MatchOrders.FatesCompose | app/api/orders/match/route.ts:75-398 | the order loop's fates followed by the liquidation loop's closings give the pass's `Cancellations`: each row unchanged, given its verdict, or canceled with the reason of the loop that deleted its position |
| MatchOrders.SweptStarts | app/api/orders/match/route.ts:319-330 | before the first position row the sweep's bookkeeping holds with nothing liquidated or closed |
| MatchOrders.BalancedAt | app/api/orders/match/route.ts:400-409 | a consistent database with `u`'s running balances makes them balanced: total is available plus locked, locked is the position margin plus the reserved margin |
| MatchOrders.Pass | app/api/orders/match/route.ts:75-409 | the pass on a known user keeps the ledger consistent, leaves other accounts alone and ends calm; every snapshot row has its `Decide` outcome, the positions and trades are those of the two loops in turn, and every order row is unchanged, given its verdict, or a stop canceled "Position closed by stop trigger" for a position the order loop deleted or "Position liquidated" (the user's only) for one the liquidation loop deleted (`Matched`, `Cancellations`); matched and rejected are the snapshot rows that became filled and rejected; trades grow by triggers plus liquidations; `u`'s total moves by the P&L of the trades logged, locked is the margin still held, and available absorbs the rest |
| MatchOrders.Match | app/api/orders/match/route.ts:10-426 | a missing symbol, a non-positive mark or an unknown user is refused, in that order, with no change; otherwise the ledger stays consistent, no other account changes, the pass ends calm, and each snapshot row, position and trade is as `Matched` describes, each changed order row carrying the verdict or the cancel reason of its cause (`Cancellations`); from a calm, dormant start all counts are zero; the counts returned are those of the tables, and `u`'s total and available balance move by the P&L of the trades logged |
| MatchOrders.MatchTwice | app/api/orders/match/route.ts:99-176 | a second pass at the same mark rejects and liquidates nothing and every match in it is a stop trigger; with no stop children from the first pass its counts are all zero |
| Candles.ExtremesBound | lib/chartUtils.ts:128-129 | the highest and lowest prices are prices of the bucket and bound all of them |
| Candles.Start | app/api/trades/route.ts:47-55 | a bucket's first trade opens it: open, high, low and close its price, volume its size; `Candles.SummaryMeaning` states what the fold means |
| Candles.Absorb | app/api/trades/route.ts:57-61 | a later trade keeps open, widens high and low, replaces close and adds its size; `Candles.SummaryMeaning` states what the fold means |
| Candles.Summary | app/api/trades/route.ts:44-61 | the fold of a bucket's trades, stated by `Candles.SummaryMeaning` |
| Candles.SummaryMeaning | app/api/trades/route.ts:44-61 | open is the first price, close the last, high the highest, low the lowest, volume the total size; open and close lie between low and high |
| Candles.UpsertStart | app/api/trades/route.ts:211-216 | upserting a later trade's fresh candle is absorbing that trade |
| Candles.UpsertAbsorb | app/api/trades/route.ts:211-216 | upserting commutes with absorbing a later trade into the incoming candle |
| Candles.UpsertConcatenates | app/api/trades/route.ts:211-216 | upserting the candle of later trades into the candle of earlier ones gives the candle of all of them |
| Candles.UpsertTwice | services/candleAggregator.ts:143-148 | upserting the same candle twice keeps high, low and close but counts its volume twice |
| Candles.Upsert | app/api/trades/route.ts:211-216 | the stored open kept, the greater high, the lesser low, the incoming close, the volumes added; its meaning is stated by `Candles.UpsertConcatenates` |
| Candles.UpsertRanged | app/api/trades/route.ts:211-216 | the upsert of two ranged candles is ranged |
| Candles.MinuteBucket | app/api/trades/route.ts:41 | the minute start in seconds: a multiple of 60 with start·1000 ≤ time < (start + 60)·1000 |
| Candles.Bucket | lib/chartUtils.ts:113 | the bucket start: a multiple of the width with start ≤ time < start + width |
| Candles.AccumulateMeaning | app/api/trades/route.ts:31-62 | after folding the trades a bucket is present iff it was or a trade went to it, and holds its prior candle combined with its trades |
| Candles.AccumulateFresh | app/api/trades/route.ts:29-62 | from an empty map every present bucket holds exactly the summary of its trades |
| Candles.KeysOf | app/api/trades/route.ts:64 | the listed buckets are distinct and are exactly the buckets that received a trade |
| Candles.AccumulateKeys | app/api/trades/route.ts:44-46 | a bucket has a candle exactly when it is listed |
| Candles.AccumulateStep | app/api/trades/route.ts:44-61 | one more trade starts or extends its bucket and lists it when new |
| Candles.FirstOfMeaning | app/api/trades/route.ts:45-55 | the first trade of a bucket is the one that opened it |
| Candles.LastOfMeaning | app/api/trades/route.ts:60 | the last trade of a bucket is the one that closed it |
| Candles.NoFillsNoKey | app/api/trades/route.ts:44-46 | a bucket without trades is not listed |
| Candles.FillsOfMembers | app/api/trades/route.ts:44-61 | a bucket's fills are exactly the fills of the trades that went to it |
| Candles.VolumeUnordered | app/api/trades/route.ts:61 | a bucket's volume does not depend on the order its trades arrive in |
| Candles.EntriesOf | app/api/trades/route.ts:64 | the (bucket, candle) entries in the order given, one per bucket listed |
| Candles.EntriesListed | app/api/trades/route.ts:64 | the entries of the accumulated buckets, in any order, are one per bucket with trades, none twice, each the summary of its trades |
| Candles.EntriesDistinct | app/api/trades/route.ts:64 | a permutation of the insertion-order entries repeats no bucket |
| Candles.EntriesCover | app/api/trades/route.ts:64 | a permutation of the insertion-order entries covers every bucket that received a trade |
| Candles.SortedPointsAscend | app/api/trades/route.ts:28 | the sorted trades, as points, ascend in time |
| Candles.SortedBucketOpen | app/api/trades/route.ts:28-49 | folding in time order, a bucket opens at the price of one of its trades no later than any other |
| Candles.SortedBucketClose | app/api/trades/route.ts:28-60 | ... and closes at the price of one no earlier than any other |
| Candles.SortedBucketExtremes | app/api/trades/route.ts:58-59 | a bucket's high and low are prices of its trades |
| Candles.SortedBucketBounds | app/api/trades/route.ts:58-59 | a bucket's high and low bound all of its trades' prices |
| Candles.SortedBucketCandle | app/api/trades/route.ts:25-65 | a bucket's candle, in terms of the trades: earliest open, latest close, extreme high and low, total volume, ranged |
| Candles.SortBy | app/api/trades/route.ts:28 | the result is sorted by the key and is a permutation of the input |
| Candles.DistinctPermutation | app/api/trades/route.ts:64 | a permutation of a sequence without repeats has none |
| CandleAggregator.PointOf | services/candleAggregator.ts:45-57 | a rejected trade goes to no bucket; an accepted one goes to (symbol, minute start) with its price and size |
| CandleAggregator.Cutoff | services/candleAggregator.ts:108 | two minutes before now, in whole seconds; `CandleAggregator.Recent` states which candles it removes |
| CandleAggregator.Recent | services/candleAggregator.ts:107-112 | exactly the candles whose bucket is before the cutoff are removed; the rest are kept as they are |
| CandleAggregator.UpsertBatch | services/candleAggregator.ts:140-149 | each batch key gets its candle, merged by the upsert rule into a stored one; other keys are unchanged |
| CandleAggregator.Aggregator.constructor | services/candleAggregator.ts:40-43 | absent options take the 20 s and 1000-candle defaults; the buffer is empty |
| CandleAggregator.Aggregator.AddTrade | services/candleAggregator.ts:45-80 | a rejected trade changes nothing; an accepted one starts or absorbs into its (symbol, minute) candle; a flush is requested once the buffer reaches its limit |
| CandleAggregator.Aggregator.Start | services/candleAggregator.ts:82-88 | arms the timer; a second start changes nothing |
| CandleAggregator.Aggregator.Stop | services/candleAggregator.ts:90-95 | disarms the timer and changes nothing else |
| CandleAggregator.Aggregator.CleanupBuffer | services/candleAggregator.ts:107-112 | the loop leaves the buffer equal to `Recent` of the old buffer |
| CandleAggregator.Aggregator.BeginFlush | services/candleAggregator.ts:114-119 | nothing while in flight or empty; otherwise marks in flight and hands over the whole buffer |
| CandleAggregator.Aggregator.CompleteFlush | services/candleAggregator.ts:151-169 | on success, old candles leave the buffer and the flush time, count and reason are recorded; on failure these stay as they were; either way nothing is in flight any more |
| CandleAggregator.BufferHoldsSummaries | services/candleAggregator.ts:45-75 | trades fed into an empty buffer leave one candle per (symbol, minute) with accepted trades, the summary of those trades in arrival order |
| CandleAggregator.ReflushOverCounts | services/candleAggregator.ts:143-156 | re-flushing a bucket that is still buffered counts the earlier trades' volume twice |
| CandleAggregator.SingleDeliveryIsExact | services/candleAggregator.ts:143-148 | if each trade were flushed once, the table would hold the exact candle of all the bucket's trades |
| TradesRoute.Normalize | app/api/trades/route.ts:122-144 | the loop's output equals `NormalizedOf` of the body |
| TradesRoute.NormalizedOf | app/api/trades/route.ts:123-144 | the usable body trades in normal form, in order; stated by `TradesRoute.NormalizedMeaning` |
| TradesRoute.NormalizedMeaning | app/api/trades/route.ts:123-144 | exactly the usable trades are kept, in order, each in its normal form, with a non-empty hash and symbol |
| TradesRoute.RawOf | app/api/trades/route.ts:136-143 | one body trade per normalised trade, in order |
| TradesRoute.RenormalizeIsIdentity | app/api/trades/route.ts:123-144 | normalising already normalised trades gives them back unchanged |
| TradesRoute.PointOf | app/api/trades/route.ts:37-42 | a trade goes to (symbol, minute start) with its price and size, or to none without a symbol |
| TradesRoute.BuildOneMinuteCandles | app/api/trades/route.ts:25-65 | no trades give no rows; otherwise one row per (symbol, minute) with trades, none twice, each the fold of its trades in time order, rows ascending by time |
| TradesRoute.RowsBuilt | app/api/trades/route.ts:64 | the sorted entries of the accumulated buckets are the built rows |
| TradesRoute.BucketCandle | app/api/trades/route.ts:25-65 | a row's candle in terms of the batch: earliest open, latest close, extreme high and low, total volume |
| TradesRoute.InsertNewMeaning | app/api/trades/route.ts:161-175 | old rows are kept; every batch key is stored; the trades inserted are new, one per key, stored as given |
| TradesRoute.InsertNew | app/api/trades/route.ts:161-175 | the insert that skips stored keys, stated by `TradesRoute.InsertNewMeaning` |
| TradesRoute.InsertNewTable | app/api/trades/route.ts:161-175 | old rows are kept and the keys after the insert are the old keys plus the batch's keys |
| TradesRoute.InsertNewRows | app/api/trades/route.ts:161-175 | every trade reported inserted is a batch trade whose key was new, stored as given |
| TradesRoute.InsertNewDistinct | app/api/trades/route.ts:161-175 | no two trades reported inserted share a key |
| TradesRoute.InsertNewCovers | app/api/trades/route.ts:161-175 | every key the table gained belongs to a trade reported inserted |
| TradesRoute.ReplayInsertsNothing | app/api/trades/route.ts:164 | sending a batch again inserts nothing |
| TradesRoute.AllStored | app/api/trades/route.ts:164 | a batch whose keys are all stored inserts nothing and leaves the table unchanged |
| TradesRoute.UpsertRowsMeaning | app/api/trades/route.ts:208-219 | each row's key gets its candle, merged into a stored one by the upsert rule; other keys keep theirs |
| TradesRoute.UpsertRows | app/api/trades/route.ts:196-219 | the candle upsert of a row list, stated by `TradesRoute.UpsertRowsMeaning` |
| TradesRoute.MarketStore.constructor | app/api/trades/route.ts:161-166 | both tables start empty |
| TradesRoute.Post | app/api/trades/route.ts:109-222 | an empty body answers `inserted: 0` only; no usable trade answers 0 and 0; otherwise the new trades are inserted and, for source `mock`, their candles built and upserted |
| TradesRoute.PostTwice | app/api/trades/route.ts:161-186 | a second identical post inserts and upserts nothing |
| ChartUtils.IntervalMs | lib/chartUtils.ts:16-36 | every width is a positive multiple of a minute; an unlisted interval is one minute |
| ChartUtils.ChartPoint | lib/chartUtils.ts:98-113 | a trade with a timestamp and a finite price goes to its aligned bucket with its price and size; others go to none |
| ChartUtils.Repair | lib/chartUtils.ts:139-161 | the result is ranged, keeps open, close and volume, only raises high and lowers low, and changes nothing on a ranged candle |
| ChartUtils.AggregateTradesToCandles | lib/chartUtils.ts:79-187 | no trades give no candles; otherwise times strictly ascend and align to the interval; each candle is the summary of its bucket's trades in time order; every bucket with trades has a candle |
| ChartUtils.CandlesOfUnique | lib/chartUtils.ts:79-187 | the candle list of a batch is determined by the batch and the interval: two lists meeting the aggregator's contract are equal |
| ChartUtils.SameTimes | lib/chartUtils.ts:136-165 | two strictly ascending candle lists with the same set of times have the same times at the same places |
| ChartUtils.TimesTail | lib/chartUtils.ts:136-165 | dropping the first candle of a strictly ascending list drops exactly its time |
| ChartUtils.TimesEmpty | lib/chartUtils.ts:83 | a candle list has no times exactly when it is empty |
| ChartUtils.TimesCovered | lib/chartUtils.ts:97-137 | every time of a list meeting the aggregator's contract is a time of any other such list |
| ChartUtils.FoldBuckets | lib/chartUtils.ts:97-132 | the loop leaves one candle per bucket that received a charted trade, equal to the fold of its trades in the given order, with the buckets listed in first-seen order |
| ChartUtils.CandlesBuilt | lib/chartUtils.ts:136-171 | the candles made from the accumulated buckets are ascending, aligned, complete and exact |
| ChartUtils.EntriesBuilt | lib/chartUtils.ts:136-137 | the sorted bucket entries are listed, ascending and aligned |
| ChartUtils.ToSeconds | lib/chartUtils.ts:163-170 | converting to whole seconds is exact and keeps times strictly ascending, and the repair leaves the summaries unchanged |
| ChartUtils.WholeSeconds | lib/chartUtils.ts:164 | a bucket start in milliseconds is a whole number of seconds |
| ChartUtils.ChartBucketCandle | lib/chartUtils.ts:91-132 | a chart candle, in terms of the trades: earliest open, latest close, extreme high and low, total volume |
| ChartData.MergeBaselineMonotone | hooks/useChartData.tsx:100-133 | the baseline never decreases, and it exists once a candle has been merged |
| ChartData.MergeOne | hooks/useChartData.tsx:102-130 | one realtime candle: appended when there is no baseline or it is newer, replacing the last candle at the baseline, ignored when older; stated by the `ChartData.Merge*` lemmas |
| ChartData.MergeAll | hooks/useChartData.tsx:98-134 | the merge of a batch in order; stated by `ChartData.MergeKeepsCoherent`, `ChartData.MergeAccepts` and the other `ChartData.Merge*` lemmas |
| ChartData.MergeKeepsEarlier | hooks/useChartData.tsx:99-133 | the list never shrinks, and every candle before the last is unchanged |
| ChartData.MergeIgnoresStale | hooks/useChartData.tsx:113-130 | candles older than the baseline change nothing |
| ChartData.MergeKeepsCoherent | hooks/useChartData.tsx:102-131 | a list ascending with the baseline at its last candle stays so |
| ChartData.MergeAccepts | hooks/useChartData.tsx:102-131 | on a coherent list, every candle of an ascending batch that is not older than the baseline ends up in the list |
| ChartData.SameOrNewer | hooks/useChartData.tsx:113-130 | the last candle of such a batch ends up in the list |
| ChartData.BaselineFromBatch | hooks/useChartData.tsx:104-118 | the baseline after a batch is the old one or the time of a batch candle |
| ChartData.Unprocessed | hooks/useChartData.tsx:82 | the slice holds the trades from the processed count on, in order, or none |
| ChartData.SliceTakesOldest | hooks/useChartData.tsx:82-89 | on the newest-first list, the slice at the old length picks the oldest entries rather than the new trades, and yields nothing once the list is full |
| ChartData.ChartFeed.constructor | hooks/useChartData.tsx:15-23 | no candles, no baseline, nothing processed, loading |
| ChartData.ChartFeed.Merge | hooks/useChartData.tsx:98-134 | the loop leaves the candles and baseline equal to `MergeAll` of the old ones |
| ChartData.ChartFeed.MergeRealtime | hooks/useChartData.tsx:77-135 | nothing while loading or with nothing new; otherwise the count becomes the list length, the candles built from the unprocessed slice are exactly the `CandlesOf` it (ascending, aligned, complete, each the summary of its bucket), and the candles and baseline become `MergeAll` of the old ones with them |
| ChartData.ChartFeed.ResetSelection | hooks/useChartData.tsx:26-30 | the count and the baseline are cleared and the candles kept |
| ChartData.ChartFeed.Load | hooks/useChartData.tsx:49-64 | loaded candles replace the list with the baseline at the last one's time; loading ends |
| ChartData.ChartFeed.Refresh | hooks/useChartData.tsx:138-167 | as the load, and a successful refresh also resets the count |
| ChartData.LoadedCoherent | hooks/useChartData.tsx:52-55 | strictly ascending loaded candles give a coherent view |
| RecentTrades.SideOf | hooks/useTrades.tsx:34 | a buy exactly when the side is `B` |
| RecentTrades.SizeUsdc | hooks/useTrades.tsx:33 | size × price, finite exactly when the price is |
| RecentTrades.Processed | hooks/useTrades.tsx:23-43 | the display form of one feed trade: its price and size, the USDC size, the side, the timestamp and the id; stated by `RecentTrades.Stamped` |
| RecentTrades.Stamped | hooks/useTrades.tsx:23-44 | one display trade per feed trade, in order, with ids counting up from the counter |
| RecentTrades.Prepend | hooks/useTrades.tsx:46 | the new trades first in batch order, then the old ones in order, cut at 50 |
| RecentTrades.PrependKeepsIds | hooks/useTrades.tsx:24 | ids stay distinct and below the advanced counter |
| RecentTrades.Feed.constructor | hooks/useTrades.tsx:14-16 | an empty list, counter zero, the given symbol |
| RecentTrades.Feed.ProcessTrades | hooks/useTrades.tsx:18-47 | a batch of another symbol changes nothing; otherwise the counter advances by the batch size and the stamped batch is prepended and capped; the list stays ≤ 50 with distinct ids |
| RecentTrades.Feed.ResetTrades | hooks/useTrades.tsx:49-52 | the list is emptied and the counter reset to zero |
| RecentTrades.Feed.SetSymbol | hooks/useTrades.tsx:87 | only the current symbol changes |
| RecentTrades.Feed.LoadHistorical | hooks/useTrades.tsx:67-71 | an empty history changes nothing; otherwise the list is rebuilt from the history, numbered from zero |

## Where the code and its documentation differ

The model follows the code in each of these cases.

- **Matching twice at the same mark.** The documentation calls this idempotent. In the
  code, a stop child created by a limit fill in the first pass is only read by the
  second pass, and it can trigger there. The model proves the weaker property: the
  second pass fills no limit order, rejects nothing and liquidates nothing.
- **Stop triggers.** A triggered stop writes its trade with status `liquidated`.
- **Close and liquidation.** The close route and the liquidation service release
  margin without the clamp at zero, and they leave linked stop orders open.
- **Re-flushing buffered candles.** A flushed candle stays in the server buffer until
  it is two minutes old. The upsert adds volumes, so a second flush counts the earlier
  trades twice (`CandleAggregator.ReflushOverCounts`).
- **Realtime chart trades.** The chart slices the newest-first recent-trades list at
  the processed count. That picks the oldest entries, and nothing at all once the list
  holds 50 trades (`ChartData.SliceTakesOldest`).

## Left out

- The SQL layer is not modelled: connections, `BEGIN`/`COMMIT`/`ROLLBACK`, row locks
  and `NOW()`. Each route is one atomic step.
- Time and randomness are parameters: `Date.now()`, snapshot ages and the timer
  callbacks.
- Authentication (JWT, wallets) is left out. The user id is a parameter.
- The network, WebSocket feeds, React rendering and logging are left out.
- Oracle reads are not connected to the routes. The order, open and close routes take
  the oracle's answer as a parameter `price: Option<real>`, and the liquidation tick takes
  a map of marks; no contract ties these to `Oracle`. The module `Oracle` states the
  three price rules (entry, exit, mark) on their own, over a snapshot `Oracle.Snapshot`
  of the book and the latest candle. The queries behind the snapshot are not part of
  this model.
- `LiquidationService.Tick`: the service reads the mark again for every position
  (services/liquidationService.ts:73), so two positions on one symbol can see two
  different marks within one tick. The model uses one mark per symbol for the whole tick.
- `LiquidationService.Tick` and `MatchOrders.LiquidationLoop`: the position SELECTs
  (services/liquidationService.ts:67-70, app/api/orders/match/route.ts:319-328) have no
  ORDER BY, so the database may return rows in any order. The model visits positions in
  id order, so the trades and history rows the loops log come out in id order; other
  orders would log the same rows in another order.
- `Ledger.ParseRowId`: row keys are taken to be `bigint`. The schema is not part of this
  model; with a 32-bit key, ids from 2^31 on would fail the query too.
- Symbols are not upper-cased. The symbol is taken to be the coin as given.
- Candle and trade map keys are (symbol, time) pairs, not `${symbol}-${time}` strings.
  The string form could make two keys collide; the pairs cannot.
- Number formatting (`toFixed`, `toLocaleString`) and the chart's `Date.parse`
  timestamp fallback are left out. `timeMs` is the timestamp.
- `RecentTrades.Processed`: the recent-trades list keeps the price as text rounded by
  `toFixed` (0 decimals for BTC, 2 otherwise), and the chart parses that text back.
  The model keeps the feed price unrounded, so chart candles built from the list
  carry the exact price rather than the rounded one.
- JavaScript numbers are reals, or `Num.NonFinite` for NaN and the infinities.
  Floating-point rounding is not modelled.
- `Candles.SortBy`: the insertion sort keeps elements with equal keys in input order,
  as JavaScript's stable sort does, but its contract does not state that stability;
  it states sorted and a permutation. The open and close of a bucket are therefore
  stated up to trades with equal timestamps.
- `CandleAggregator.Aggregator.BeginFlush`: the await between starting a flush and
  finishing it is split into two methods. Interleavings other than add-trade calls in
  between are not modelled.
- `getStats` of the aggregator is left out. It only reads fields.
- `TradesRoute.Post`: the order of the rows returned by `RETURNING` is taken to be the
  batch order. The `interval` column is always `'1m'`.
- The GET routes for trades and candles, and the fetch in the chart's load and
  refresh, are left out. The loaded candles are a parameter of `ChartData.ChartFeed.Load`.
- `ChartData.MergeOne`: with an empty candle list and a candle at the baseline time,
  the source writes index -1 and then throws in its debug log, reading `open` of the
  missing old candle. The model leaves the list unchanged in that case.
- `ChartData.ChartFeed.MergeRealtime`: React's batching of state updates and the
  double invocation of updaters in strict mode are not modelled.
- `RecentTrades.Feed.ProcessTrades`: `sz` is taken to parse to a finite number, and
  the `trade-n` id string is its number `n`.
