# Verified model of the swap contracts and their planners

Four contracts over one token ledger, and the off-chain planners that must agree with
them, modelled in Dafny with proofs that hold over every input and every run.

- **SwapBook** (`SwapBook`, `BookInvariant`, `BookCalls`, `BookEntry`, `BookQuote`,
  `BookReplay`, `QuoteBudget`, `SwapBookContract`): the escrowed order book.
- **Router** (`Venues`, `VenueCalls`, `Routing`, `RouterCalls`, `RouterLegs`, `RouterAccepts`,
  `RouterContract`): split routes, atomic paths and settlement of timed-out orders.
- **SwapBook and Router together** (`Lifetime`): the maker's price guarantee over runs.
- **TwapBook** (`TwapBook`, `TwapCalls`, `TwapRuns`, `TwapHistory`, `TwapContract`) and its
  **keeper** (`Keeper`).
- **RfqSettle** (`Rfq`, `RfqContract`): firm quotes with lapsing replay records.
- **Book planner** (`Planner`), **routing engine** (`Tranches`, `LadderQuotes`, `Engine`,
  `VenueFills`, `NearOptimal`, `ComputedRoute`, `RouteQuotes`), **quote cache** (`QuoteCurve`,
  `QuoteCache`, `QuoteCurveCache`) and **pathfinder** (`Pathfinder`, `PathSearch`).
- Shared: `Results` (error codes), `MulDiv` (rounding), `Chain` (balances, transfers,
  oracle), `Sums`, `Host` (the live clock and ledger).

Each contract appears twice. A function per entry point takes the world before a call to
the world after it or to an error; the theorems are about these. A class holds the stored
fields, and each of its methods, with the source's loops and order of checks, is proved to
produce exactly what the function says and to leave everything unchanged on an error.

## Conventions

- Balances are a map from (token, holder) to an integer. A transfer is exact and fails on
  shortage; a failed call leaves the whole state as it was.
- A venue may return anything (`outs`, in call order; no answer is a venue that fails). It
  credits the caller what it returns and moves nothing else but its own funds.
- The oracle is a directed price with positive numerator and denominator and the ledger of
  its last update. A muldiv result outside i128 aborts the call.
- Receipts of a SwapBook order and slice counts of a TWAP order are history kept for the
  theorems; no branch reads them.
- Off-chain integers are unbounded, and division is the source's: toward zero.

## Where the code and the promises differ

- An oracle `max_affordable_fill` is affordable but not always the largest;
  `OracleFillIsLargestIff` says exactly when it is.
- `quote_fill` can offer oracle dust at price 0, which a fill then refuses;
  `QuoteReplaysUnlessDust` says exactly which quotes replay.
- `quote_fill` is not monotone in the budget: it scans in index order, not price order.
  `QuoteFallsIff` says exactly when a book buys less with one more unit,
  `FixedQuoteFallsIff` what that comes to at fixed prices, and `OrderedQuoteGrows` that a
  Fixed-price book in price order never does.
- The user's receipt can fall when a venue returns one unit more; `ReceiptDropsIff` says
  exactly when.
- An RFQ nonce can be used again once its record has lapsed; the at-most-once promise holds
  per quote, and `UsesFarApart` and `RecordLifetime` say how long a nonce is taken.
- `planBookFills` does not look at expiry and can plan on a lapsed order the index still
  lists; `PlanFromBookAccepted` says exactly which plans the contract accepts.
- The depth-first search can exceed its cap by up to one chain per hop but one, and
  `CapCanBeOvershot` shows that this is reached for every cap and number of hops.
- The greedy loop can take a venue's deep tranche before a dearer one below it, and then
  expects more than the venue quotes for that amount (`UnorderedLadderCanOverExpect`);
  `VenueWithinQuote` shows that it does not where the venue's keys ascend.
- The comments in the RFQ contract say that the SwapBook returns stale prices for pairs
  without a feed; the SwapBook's own `get_oracle_price` refuses them, so the RFQ's own
  staleness error cannot arise (`NavIsNeverStale`). The model follows the code.

## Model

| member | source | states |
|---|---|---|
| Lifetime.MakerFloorHolds | contracts/swap-book/src/lib.rs:997-1047 | After any run of SwapBook and Router calls from deployment, every Fixed order has net receipts x amount_in >= min_amount_out x (amount_in - remaining - refunded) |
| Lifetime.ConsumedOrderIsPaidInFull | contracts/swap-book/src/lib.rs:1308-1422 | A Fixed order consumed in full, by any mix of fills, matches and timer settlement under any fees, has netted its maker at least min_amount_out |
| Lifetime.RunKeepsHealthy | contracts/swap-book/src/lib.rs:474-622 | Over every run the book invariant, the per-order payment floor and the contract identities all hold |
| Lifetime.NextKeepsHealthy | contracts/swap-book/src/lib.rs:1308-1390 | Every single call, successful or failing, keeps that |
| Lifetime.ReachableBook | contracts/swap-book/src/lib.rs:1535-1559 | In every reachable state: escrow held per token is exactly the remaining input of live orders plus unsolicited transfers; each pair index is exactly the live ids of the pair, ascending, at most 200; each counter is the maker's live orders on the pair, at most 10; closed orders hold 0 |
| Lifetime.RunKeepsSurplus | contracts/swap-book/src/lib.rs:817-875 | Over any run the contract's holding beyond its escrow changes only by unsolicited transfers |
| Lifetime.HistoryIsMoney | contracts/swap-book/src/lib.rs:1308-1390 | While a maker only waits, its holdings grow by exactly the net receipts and refunds the history records, so the floor above is about money in its account |
| Lifetime.FillKeepsPaid | contracts/swap-book/src/lib.rs:1308-1390 | A fill keeps every order paid for at its own price |
| Lifetime.MatchKeepsPaid | contracts/swap-book/src/lib.rs:638-690 | So does a whole plan of fills, also when it repeats an order |
| Lifetime.SettleKeepsPaid | contracts/swap-book/src/lib.rs:997-1047 | So does a timer claim settled through the Router |
| BookEntry.PlaceAcceptedIff | contracts/swap-book/src/lib.rs:474-571 | A placement is accepted if and only if the request asks for something within every limit on price terms, dates, minimum size, exclusions and open orders, and the maker holds it |
| BookEntry.CancelAcceptedIff | contracts/swap-book/src/lib.rs:817-830 | A cancel is refused only on an unknown or closed order |
| BookEntry.ExpireAcceptedIff | contracts/swap-book/src/lib.rs:846-863 | An expiry succeeds if and only if the order is live and past its expiry |
| BookEntry.ClaimAcceptedIff | contracts/swap-book/src/lib.rs:997-1047 | A claim succeeds if and only if the order is live, after its timer, up to its expiry, and its price can be computed |
| BookEntry.MatchLeaves | contracts/swap-book/src/lib.rs:658-678 | A plan changes no order it does not name and numbers none |
| BookEntry.MatchAndPlaceLists | contracts/swap-book/src/lib.rs:680-690 | The unspent rest becomes exactly one new order at the next id, with the request's maker, pair, price terms, expiry, timer and exclusions and the rest as its amount; with nothing left none is numbered |
| BookEntry.MatchAndPlaceAcceptedIff | contracts/swap-book/src/lib.rs:638-690 | The call succeeds if and only if its plan runs and the book takes what is left |
| BookEntry.SettingsAcceptedIff | contracts/swap-book/src/lib.rs:695-707 | The fee moves only within its cap; a minimum only to what is not negative, for that token alone |
| BookInvariant.EnlistKeeps | contracts/swap-book/src/lib.rs:573-614 | Listing an order below both limits keeps every index and counter exact and adds its remaining amount to the escrow |
| BookInvariant.ConsumeKeeps | contracts/swap-book/src/lib.rs:1376-1383 | Taking part or all of an order keeps indexes and counters exact and lowers the escrow of its token by the fill alone |
| BookInvariant.CloseKeeps | contracts/swap-book/src/lib.rs:1149-1165 | Closing an order keeps indexes and counters exact and releases exactly its remaining escrow |
| BookInvariant.WithoutRemoves | contracts/swap-book/src/lib.rs:1535-1559 | Removing an id from an ascending index leaves the others, in order |
| BookCalls.FloorMeansPrice | contracts/swap-book/src/lib.rs:1395-1427 | The ceiling-rounded required payment is met exactly when the net meets the exact rational price: pro rata for Fixed, floored fair value less the slippage for Oracle |
| BookCalls.FeeIsPart | contracts/swap-book/src/lib.rs:1500-1503 | The fee is between 0 and the amount, and not 0 for a positive amount at a positive rate |
| BookCalls.FillAcceptedIff | contracts/swap-book/src/lib.rs:1308-1390 | For a taker other than vault and book, a fill is accepted if and only if the order is live, unlapsed, open to the taker, the fill positive and within the remainder, the payment positive and funded, and the net positive and at or above the floor |
| BookCalls.FillBalances | contracts/swap-book/src/lib.rs:1358-1374 | A fill changes every holding of every token by exactly its three payments |
| BookCalls.FillBook | contracts/swap-book/src/lib.rs:1376-1390 | A fill changes only its order, by exactly the fill, with the right status, and keeps the invariant |
| BookCalls.FillSurplus | contracts/swap-book/src/lib.rs:1308-1390 | A fill leaves the contract holding exactly its escrow |
| BookCalls.PlaceLists | contracts/swap-book/src/lib.rs:474-622 | A successful placement stores the order as asked at the next id and changes no other order |
| BookCalls.PlaceMoves | contracts/swap-book/src/lib.rs:560-622 | It moves exactly amount_in of token_in from maker to contract and nothing else |
| BookCalls.PlaceKeeps | contracts/swap-book/src/lib.rs:474-622 | It keeps the invariant and the escrow equation |
| BookCalls.CancelEffects | contracts/swap-book/src/lib.rs:817-841 | A cancel empties exactly that order and refunds exactly its remainder to the maker |
| BookCalls.ExpireEffects | contracts/swap-book/src/lib.rs:846-875 | An expiry does the same, only after the expiry ledger |
| BookCalls.ClaimEffects | contracts/swap-book/src/lib.rs:997-1047 | A timer claim succeeds only between timer and expiry, hands the Router the whole remainder, and its min_out is met exactly by the nets that meet the order's price |
| BookCalls.MatchFromKeeps | contracts/swap-book/src/lib.rs:638-690 | Running a plan keeps the invariant and spends exactly the plan's total, never over the request's input |
| BookCalls.MatchFromMoves | contracts/swap-book/src/lib.rs:638-690 | Every holding changes by exactly the sums over the plan, also when fills repeat an order |
| BookCalls.MatchAndPlaceKeeps | contracts/swap-book/src/lib.rs:638-690 | match_and_place keeps the invariant and the escrow equation |
| BookCalls.MatchAndPlaceConserves | contracts/swap-book/src/lib.rs:638-690 | match_and_place debits the maker exactly amount_in (fills plus escrowed rest), credits exactly the sum of fills, and sends each gross payment exactly to counter-makers plus vault |
| BookQuote.GrossIsLeast | contracts/swap-book/src/lib.rs:1438-1442 | gross_for_net is the least payment whose after-fee amount reaches the net |
| BookQuote.NetBudgetExact | contracts/swap-book/src/lib.rs:1456-1461 | Stripping the fee from a budget is the exact inverse of adding it to a price |
| BookQuote.FixedEstimateExact | contracts/swap-book/src/lib.rs:1462-1463 | In Fixed mode a fill is affordable if and only if it is at most the inverted price |
| BookQuote.EstimateAffordable | contracts/swap-book/src/lib.rs:1446-1489 | In both modes the estimate and every smaller fill is affordable |
| BookQuote.NeverStepsDown | contracts/swap-book/src/lib.rs:1479-1489 | In both modes the step-down loop never decrements: the first fill it tries is returned |
| BookQuote.FixedFillIsLargest | contracts/swap-book/src/lib.rs:1446-1489 | In Fixed mode the answer is the true largest affordable fill within the remainder |
| BookQuote.OracleAffordableIff | contracts/swap-book/src/lib.rs:1464-1476 | Exactly which oracle fills a budget affords |
| BookQuote.OracleFillIsLargestIff | contracts/swap-book/src/lib.rs:1464-1476 | The oracle answer is the largest affordable fill if and only if the remainder caps it or the double floor leaves no room for one more unit, as an explicit remainder test |
| BookQuote.OracleFillCanFallShort | contracts/swap-book/src/lib.rs:1464-1476 | A concrete oracle quote whose answer is not the largest affordable fill |
| BookReplay.PlanIsSound | contracts/swap-book/src/lib.rs:931-985 | The fills behind quote_fill are distinct live orders' positive parts at their exact gross prices, within the budget |
| BookReplay.AcceptablePlanRuns | contracts/swap-book/src/lib.rs:638-690 | A plan of individually acceptable fills on distinct orders runs to the end when funded |
| BookReplay.QuotedFillAcceptable | contracts/swap-book/src/lib.rs:973-973 | A quoted fill is acceptable to the contract exactly when its price is positive |
| BookReplay.QuoteReplaysIff | contracts/swap-book/src/lib.rs:931-985 | For a funded taker no order excludes, replaying a quote's fills succeeds if and only if each has a positive price |
| BookReplay.QuoteSettlesExactly | contracts/swap-book/src/lib.rs:931-985 | When it succeeds the taker receives and spends exactly the quoted pair, within the budget |
| BookReplay.FixedQuoteIsPaid | contracts/swap-book/src/lib.rs:931-985 | A Fixed order is never quoted at price zero |
| BookReplay.DustIsQuotedFree | contracts/swap-book/src/lib.rs:973-973 | An oracle remainder whose fair value floors to zero is quoted at 0 and the fill at that price is refused |
| BookReplay.PricedAtZeroIff | contracts/swap-book/src/lib.rs:1395-1442 | A positive fill is priced at zero if and only if it is an oracle fill whose fair value floors to zero |
| BookReplay.QuoteReplaysUnlessDust | contracts/swap-book/src/lib.rs:931-985 | So replaying a quote's fills succeeds if and only if none of them is such dust, read off the order and the oracle |
| BookReplay.FixedQuoteReplays | contracts/swap-book/src/lib.rs:931-985 | So a quote of Fixed orders only always replays, for a funded taker no order excludes |
| BookReplay.DustIsQuoted | contracts/swap-book/src/lib.rs:931-985 | A concrete book that satisfies the invariant and is fully escrowed, whose quote_fill sells one unit of dust for 0 to a funded taker, and the refusal of that replay |
| QuoteBudget.QuoteStep | contracts/swap-book/src/lib.rs:931-985 | On any book one more unit of budget changes the quote by what the first changed order gains plus what the later orders then sell, less what they sold before |
| QuoteBudget.QuoteFallsIff | contracts/swap-book/src/lib.rs:931-985 | On any book quote_fill falls with one more unit of budget if and only if the first order whose part changes gains, together with what the later orders then sell, less than these had sold |
| QuoteBudget.FixedQuoteFallsIff | contracts/swap-book/src/lib.rs:931-985 | At fixed prices nothing is then left for the later orders: it falls if and only if that order gains less than they had sold for what it left |
| QuoteBudget.OrderedQuoteGrows | contracts/swap-book/src/lib.rs:931-985 | On a Fixed-price book listed from the cheapest to the dearest quote_fill never buys less with a larger budget |
| QuoteBudget.LargerBudgetCanBuyLess | contracts/swap-book/src/lib.rs:931-985 | A concrete fully escrowed book satisfying the invariant, dear order first, where exactly one more unit of budget buys less |
| SwapBookContract.Contract.constructor | contracts/swap-book/src/lib.rs:274-278 | A deployed book is empty, numbers orders from 1 and charges the default fee |
| SwapBookContract.Contract.RemoveFromPairIndex | contracts/swap-book/src/lib.rs:1535-1559 | The in-place index rewrite removes exactly that id |
| SwapBookContract.Contract.CloseOrderIndexes | contracts/swap-book/src/lib.rs:1149-1165 | The stored index and counter change as specified and nothing else does |
| SwapBookContract.Contract.CheckPlacement | contracts/swap-book/src/lib.rs:474-560 | The placement checks in source order, with their errors |
| SwapBookContract.Contract.PlaceInner | contracts/swap-book/src/lib.rs:474-622 | The stored state after a placement is the specified one; an error leaves everything as it was |
| SwapBookContract.Contract.CheckFill | contracts/swap-book/src/lib.rs:1315-1356 | The fill checks in source order, with their errors |
| SwapBookContract.Contract.FillInner | contracts/swap-book/src/lib.rs:1308-1390 | A fill of an order read before produces the specified world |
| SwapBookContract.Contract.PartialFillOrder | contracts/swap-book/src/lib.rs:894-903 | partial_fill produces the specified world, or an error and no change |
| SwapBookContract.Contract.FillWholeOrder | contracts/swap-book/src/lib.rs:879-888 | fill_order takes the whole remainder, or an error and no change |
| SwapBookContract.Contract.CancelOrder | contracts/swap-book/src/lib.rs:817-841 | cancel_order produces the specified world, or an error and no change |
| SwapBookContract.Contract.ExpireOrder | contracts/swap-book/src/lib.rs:846-875 | expire_order produces the specified world, or an error and no change |
| SwapBookContract.Contract.ClaimExpiredTimer | contracts/swap-book/src/lib.rs:997-1047 | claim_expired_timer produces the specified world and claim, or an error and no change |
| SwapBookContract.Contract.RunFills | contracts/swap-book/src/lib.rs:658-678 | The loop over fills produces what the plan specifies |
| SwapBookContract.Contract.MatchThenPlace | contracts/swap-book/src/lib.rs:638-690 | match_and_place as a whole, returning the new order's id or 0 when nothing is left to place; a failure after some fills undoes them |
| SwapBookContract.Contract.SetProtocolFee | contracts/swap-book/src/lib.rs:695-707 | The fee changes only within its cap |
| SwapBookContract.Contract.MaxAffordableFill | contracts/swap-book/src/lib.rs:1446-1489 | The imperative estimate, cap and step-down compute the specified fill and price |
| SwapBookContract.Contract.QuoteOrders | contracts/swap-book/src/lib.rs:931-985 | The scan with its mutable budget sums exactly the specified plan |
| Planner.ComputeGross | backend/src/server.ts:680-685 | grossForNet's correction loop never iterates and it computes the contract's gross |
| Planner.ComputePart | backend/src/server.ts:655-669 | The partial branch's step-down loop never iterates and finds the exact affordable part |
| Planner.PlanBookFills | backend/src/server.ts:602-666 | The planning loop returns the specified plan, amountToSit is the rest, and no correction loop ever iterates |
| Planner.CostExact | backend/src/server.ts:652-658 | A part costs no more than the budget if and only if it is at most the inverted budget |
| Planner.PlannedWithinBudget | backend/src/server.ts:631-670 | The plan never spends over amountIn |
| Planner.CostCoversFloor | backend/src/server.ts:680-685 | A payment sized for the capped fee covers the maker's floor at every lower fee |
| Planner.PlannedFillsMeetFloors | backend/src/server.ts:631-670 | Every planned fill is a positive part of a candidate whose floor it meets at any on-chain fee from 0 to 5 |
| Planner.CandidatesInOrder | backend/src/server.ts:618-629 | Every order the taker may fill is a candidate, organic makers first and protocol-operated wallets after all of them |
| Planner.CandidatesKeepOrder | backend/src/server.ts:626-629 | Within each kind the fetched order stays |
| Planner.CandidatesAreFetched | backend/src/server.ts:618-629 | The candidate list is the pair's own live Fixed orders open to the taker, each once |
| Planner.PlannedFillsAccepted | backend/src/server.ts:631-670 | match_and_place accepts a plan in full if and only if none of the orders it reached has lapsed |
| Planner.PlanFromBookAccepted | backend/src/server.ts:602-666 | From the book as it stands: the plan is within the amount, and the contract accepts all of it, at any fee, if and only if none of the orders it reached has lapsed |
| Planner.LapsedOrderIsPlanned | backend/src/server.ts:618-625 | A concrete lapsed order, on a fully escrowed book satisfying the invariant and for a funded taker, that the planner spends on, and the refusal |
| Planner.PlannerAgreesWithQuote | backend/src/server.ts:631-670 | At fee 5 the planner's fills over live unlapsed Fixed orders are quote_fill's, one by one |
| Planner.PlannerTotalsAreQuoteFill | backend/src/server.ts:602-666 | On a Fixed-only unlapsed book at fee 5, with no protocol wallets and nothing of the taker's own or closed to it, the totals equal quote_fill's |
| RouterCalls.DivideExact | contracts/router/src/lib.rs:523-532 | User, vault and partner shares add up to the venue output exactly |
| RouterCalls.SurplusKeepsQuote | contracts/router/src/lib.rs:380-386 | Without a partner fee, for every fee up to 5 per 100k and share up to 50%, output above a positive estimate nets the user at least estimate - fee(estimate) |
| RouterCalls.FeeGrowsSlowly | contracts/router/src/lib.rs:769-777 | The ceiling fee on extra output is at most half of that output, rounded up |
| RouterCalls.ReceiptStep | contracts/router/src/lib.rs:523-532 | One more unit of venue output is the user's, less one for each of flat fee, partner cut and surplus share that steps up on it |
| RouterCalls.ReceiptDropsIff | contracts/router/src/lib.rs:523-532 | The user's receipt falls on the next unit of output if and only if two of the three deductions step up on it, each an explicit remainder test |
| RouterCalls.PlainReceiptDropsIff | contracts/router/src/lib.rs:808-824 | Without a partner: if and only if both rates are positive, the output has reached a positive estimate, and both remainder tests hold |
| RouterCalls.ReceiptCanDrop | contracts/router/src/lib.rs:808-824 | A concrete case of it |
| RouterCalls.PartnerReceiptCanDrop | contracts/router/src/lib.rs:523-532 | A concrete case with a partner and no surplus |
| RouterCalls.PlainRouteKeepsNothing | contracts/router/src/lib.rs:448-466 | execute_route: exact movements for user and vault alone, and at least estimate - fee(estimate) when execution beats a positive estimate |
| RouterCalls.PartnerRouteKeepsNothing | contracts/router/src/lib.rs:469-488 | execute_route_partner: the rate is within its cap, the partner gets its rounded-up rate of the output, and the vault exactly what it would get without a partner |
| RouterCalls.SwapOneKeepsNothing | contracts/router/src/lib.rs:575-600 | swap: the one venue's answer less the flat fee, never a surplus share |
| RouterCalls.PayOutMoves | contracts/router/src/lib.rs:538-565 | The payouts move exactly the split from the Router and nothing else |
| RouterCalls.RouteKeepsNothing | contracts/router/src/lib.rs:491-570 | A successful route takes exactly amount_in from the user, passes the whole output on, pays the user at or above min_total_out, and leaves every Router balance as it was |
| RouterCalls.LegsMove | contracts/router/src/lib.rs:338-375 | The legs of one hop swap exactly the carry, whatever the weights, the last taking what remains |
| RouterCalls.HopsMove | contracts/router/src/lib.rs:333-378 | Hop by hop the whole carry is swapped, also when the path revisits a token |
| RouterCalls.PathKeepsNothing | contracts/router/src/lib.rs:279-413 | A successful path takes exactly amount_in, splits the final output exactly, respects min_out, nets at least estimate - fee(estimate) when execution beats a positive estimate, and leaves every Router balance as it was |
| RouterLegs.RoutePaysVenues | contracts/router/src/lib.rs:491-570 | Every holding after a route, the venues' included: each segment's own amount goes to its own venue |
| RouterLegs.ExecutePaysVenues | contracts/router/src/lib.rs:711-759 | The same for a run of segments |
| RouterLegs.LegsPayVenues | contracts/router/src/lib.rs:338-375 | Every holding after a hop: each leg's venue is sent its floored weight of the carry, the last leg's what the others leave |
| RouterLegs.PathPaysVenues | contracts/router/src/lib.rs:333-400 | Every holding after a path: each hop carries all that the venues of the hop before returned |
| RouterLegs.ValidHopsIff | contracts/router/src/lib.rs:302-324 | The hop checks hold if and only if each hop changes token over legs of positive weights that sum to 10000 with non-negative minimums |
| RouterLegs.RouteAcceptedIff | contracts/router/src/lib.rs:504-536 | A route is accepted if and only if its request is well formed, the user holds the input, every venue delivers, and the user's part meets the floor |
| RouterAccepts.PathAcceptedIff | contracts/router/src/lib.rs:290-386 | A path is accepted if and only if its request is one to five valid hops, the user holds the input, the venues deliver hop by hop on positive shares, and the user's part meets the floor |
| RouterAccepts.RouteExpiredAcceptedIff | contracts/router/src/lib.rs:615-659 | A timed-out order is routed if and only if it can be claimed, the segments sum to what is left of it, every venue delivers, and the maker's net meets the order's own price |
| RouterCalls.SettleClaimPays | contracts/router/src/lib.rs:633-659 | A settlement pays the maker at or above the claim's floor |
| RouterCalls.SettleClaimMoves | contracts/router/src/lib.rs:633-659 | It spends the whole claim and keeps nothing of the output |
| RouterCalls.RouteExpiredBook | contracts/router/src/lib.rs:615-666 | Routing a timed-out order closes exactly that order, between timer and expiry, at or above its own price |
| RouterCalls.RouteExpiredKeepsNothing | contracts/router/src/lib.rs:615-666 | Escrow goes to the venues and their output to maker and vault; the Router keeps nothing |
| Venues.SwapMoves | contracts/router/src/lib.rs:723-755 | One adapter call changes only venue balances and the caller's two |
| Venues.ExecuteMoves | contracts/router/src/lib.rs:711-759 | Segments turn exactly their total into exactly what the venues returned, each at or above its minimum |
| VenueCalls.ValidateSegments | contracts/router/src/lib.rs:688-707 | The validation loop gives the specified verdict and error |
| VenueCalls.SwapOnce | contracts/router/src/lib.rs:723-755 | One adapter call on the live ledger is the specified step |
| VenueCalls.ExecuteSegments | contracts/router/src/lib.rs:711-759 | The accumulation loop over segments is the specified run |
| RouterContract.Contract.Disburse | contracts/router/src/lib.rs:538-565 | The payouts on the live ledger are the specified ones |
| RouterContract.Contract.Distribute | contracts/router/src/lib.rs:523-565 | Fee, surplus and partner deductions and payouts as specified |
| RouterContract.Contract.RouteThrough | contracts/router/src/lib.rs:491-570 | route_inner produces the specified balances, or an error and no change |
| RouterContract.Contract.RoutePlain | contracts/router/src/lib.rs:448-466 | execute_route produces the specified balances and receipt, or an error and no change |
| RouterContract.Contract.RouteWithPartner | contracts/router/src/lib.rs:469-488 | execute_route_partner, with its cap, likewise |
| RouterContract.Contract.SwapSingle | contracts/router/src/lib.rs:575-600 | swap likewise |
| RouterContract.Contract.CheckHops | contracts/router/src/lib.rs:296-324 | The up-front hop checks accept exactly the valid paths |
| RouterContract.Contract.SwapLegs | contracts/router/src/lib.rs:338-375 | The leg loop with its mutable remainder is the specified split |
| RouterContract.Contract.WalkHops | contracts/router/src/lib.rs:333-378 | The hop loop with its mutable carry is the specified walk |
| RouterContract.Contract.RoutePath | contracts/router/src/lib.rs:279-413 | execute_path produces the specified balances, or an error and no change |
| RouterContract.Contract.RouteExpiredOrder | contracts/router/src/lib.rs:615-666 | route_expired_order over the live SwapBook; returns the maker's net; a failing settlement restores the claim too |
| TwapRuns.OrdersStayInBounds | contracts/twap-book/src/lib.rs:364-466 | At every ledger of every run from deployment: filled_in <= total_in and <= floor(total x elapsed / duration) + floor(total x tolerance / 10000); slices <= 1 + (end - start) / min_slice_gap; and limit orders have received_out x limit_den >= filled_in x limit_num |
| TwapRuns.ReachableTwapBook | contracts/twap-book/src/lib.rs:572-586 | In every reachable state the balance per token is exactly what Active orders have left to sell plus unsolicited transfers, and the index is exactly the Active ids, distinct, at most 500 |
| TwapCalls.PlaceTwapLists | contracts/twap-book/src/lib.rs:256-359 | The stored order is the request's: total, window, limit, caps, gap and tolerance, starting now and unfilled |
| TwapCalls.PlaceTwapAcceptedIff | contracts/twap-book/src/lib.rs:256-340 | A placement is accepted if and only if it is within every limit and the maker holds the total |
| TwapCalls.SliceFloorMeansPrice | contracts/twap-book/src/lib.rs:416-431 | The rounded floor is met exactly when the net meets the exact price: the limit, or fair value less the slippage at a fresh price |
| TwapCalls.SliceAdvances | contracts/twap-book/src/lib.rs:445-452 | A slice advances filled_in and received_out by exactly what it sold and netted, at its price, completes the order exactly when nothing is left, and changes no other |
| TwapCalls.OracleSlicePays | contracts/twap-book/src/lib.rs:419-431 | An oracle-bound slice raises received_out by at least fair value less the order's slippage |
| TwapCalls.SliceFeeExact | contracts/twap-book/src/lib.rs:413-414 | The fee is the exact rate of the output rounded up |
| TwapCalls.CheckSliceIff | contracts/twap-book/src/lib.rs:373-407 | The pre-trade checks in explicit terms |
| TwapCalls.SliceAcceptedIff | contracts/twap-book/src/lib.rs:364-431 | A slice is accepted if and only if it is active, timely, within its caps and on pace, its segments sum to it, every venue delivers, and the net meets the order's price |
| TwapCalls.CloseAcceptedIff | contracts/twap-book/src/lib.rs:470-504 | Cancel and expiry succeed if and only if the order is Active, and for an expiry past its window |
| TwapHistory.RecordsAreMoney | contracts/twap-book/src/lib.rs:433-447 | While a maker only waits, its holdings of every token grow by exactly what its orders' records gained: received_out, and total_in - filled_in of those closed early |
| TwapHistory.SliceExplained | contracts/twap-book/src/lib.rs:433-447 | A slice pays its maker exactly what it adds to received_out |
| TwapRuns.TwapRunKeeps | contracts/twap-book/src/lib.rs:364-466 | The invariant and the solvency equation hold over every run, also where one order's output token is another's input |
| TwapRuns.SliceKeepsOrder | contracts/twap-book/src/lib.rs:380-431 | One more accepted slice keeps an order's pace, cadence and price |
| TwapRuns.SlicesFitWindow | contracts/twap-book/src/lib.rs:380-383 | The cadence invariant bounds the number of slices by the window |
| TwapRuns.SellPays | contracts/twap-book/src/lib.rs:409-431 | A slice nets the maker venue output less the fee, at or above the order's floor |
| TwapRuns.SellMoves | contracts/twap-book/src/lib.rs:409-443 | It spends exactly its amount and passes its whole output on |
| TwapRuns.RefundMoves | contracts/twap-book/src/lib.rs:560-570 | Closing refunds exactly total_in - filled_in and keeps solvency |
| TwapRuns.PlaceTwapKeeps | contracts/twap-book/src/lib.rs:256-359 | Placing keeps the invariant: a new order is on pace, on price and indexed |
| TwapRuns.PlaceTwapKeepsSurplus | contracts/twap-book/src/lib.rs:256-359 | Placing escrows exactly total_in |
| TwapRuns.ScheduleMonotone | contracts/twap-book/src/lib.rs:393-407 | The schedule's level never falls as ledgers pass |
| TwapRuns.RefundKeeps | contracts/twap-book/src/lib.rs:470-504 | Cancelling and expiring keep the invariant |
| TwapRuns.TwapNextKeeps | contracts/twap-book/src/lib.rs:364-466 | Every single call keeps the invariant and the solvency equation |
| TwapContract.Contract.PlaceOrder | contracts/twap-book/src/lib.rs:256-359 | place_twap produces the specified world, or an error and no change |
| TwapContract.Contract.Deindex | contracts/twap-book/src/lib.rs:572-586 | The index rewrite removes exactly that id |
| TwapContract.Contract.VetSlice | contracts/twap-book/src/lib.rs:364-407 | Status, expiry, cadence, size and pace checks in source order |
| TwapContract.Contract.Sell | contracts/twap-book/src/lib.rs:409-443 | Trading and paying out a slice as specified |
| TwapContract.Contract.SliceOrder | contracts/twap-book/src/lib.rs:364-466 | execute_slice produces the specified world and returns the slice's net, or an error and no change |
| TwapContract.Contract.CancelOrder | contracts/twap-book/src/lib.rs:470-484 | cancel_twap produces the specified world, or an error and no change |
| TwapContract.Contract.ExpireOrder | contracts/twap-book/src/lib.rs:488-504 | expire_twap produces the specified world, or an error and no change |
| Keeper.SizeSlice | backend/src/services/twap-keeper.ts:198-289 | The sequence of caps computes the specified slice in all three branches |
| Keeper.SubmittedSliceAccepted | backend/src/services/twap-keeper.ts:211-289 | A submitted slice passes the contract's status, cadence, size and pace checks at every landing ledger from the tick through end_ledger while the order is unchanged |
| Keeper.BehindScheduleIsSliced | backend/src/services/twap-keeper.ts:231-289 | A due order behind its schedule always gets a slice, at least the capped shortfall |
| Keeper.EndGameIff | backend/src/services/twap-keeper.ts:234-237 | The end-game starts exactly when the ledgers left no longer exceed the gaps of the slices the remainder needs plus 18 |
| Keeper.EndGameSizesToCeiling | backend/src/services/twap-keeper.ts:239-241 | In the end-game a due order gets all that pace, slice cap and remainder allow |
| Keeper.FairMarketSizesToCeiling | backend/src/services/twap-keeper.ts:249-289 | So it does at a fair market if its maker allows a band |
| Keeper.OrdinarySlice | backend/src/services/twap-keeper.ts:239-289 | Otherwise it gets exactly what brings it up to its schedule, capped |
| Keeper.NotDueIsNotSliced | backend/src/services/twap-keeper.ts:185-216 | An order not Active, past its window or within its gap is never sliced |
| Rfq.NoQuoteSettlesTwice | contracts/rfq/src/lib.rs:155-210 | Over any run no quote value settles twice, although replay records lapse |
| Rfq.RetiredNonceNeverSettles | contracts/rfq/src/lib.rs:212-221 | After cancel_nonce at ledger c no quote with that nonce and expiry <= c + MAX_QUOTE_TTL_LEDGERS ever settles |
| Rfq.BlockedStays | contracts/rfq/src/lib.rs:351-361 | A record that outlives a quote keeps outliving it through every call |
| Rfq.UsesFarApart | contracts/rfq/src/lib.rs:351-361 | In any run two uses of one (maker, nonce), settlements or cancellations, at ledgers s then t have s + USED_TTL_LEDGERS < t |
| Rfq.RecordLifetime | contracts/rfq/src/lib.rs:42-49 | After any run from deployment a nonce is refused as used if and only if it was used within the last USED_TTL_LEDGERS |
| Rfq.SettlesIff | contracts/rfq/src/lib.rs:155-206 | Once a record has lapsed only the ordinary checks can refuse: settlement succeeds if and only if the quote is valid, no record is live, the NAV band holds, the fee leaves something and both legs are funded |
| Rfq.NonceCanSettleAgain | contracts/rfq/src/lib.rs:351-361 | A concrete run where two different quotes settle under one nonce: the promise is per quote |
| Rfq.NavIsNeverStale | contracts/rfq/src/lib.rs:425-445 | The contract's own staleness error cannot arise, and its price read succeeds exactly when the SwapBook's does |
| Rfq.ValidQuoteIff | contracts/rfq/src/lib.rs:373-394 | The validity checks in explicit terms, with the window and band caps |
| Rfq.BandNeedsPrice | contracts/rfq/src/lib.rs:398-404 | Without a band no price is read; with one an unavailable price is refused |
| Rfq.CheckReports | contracts/rfq/src/lib.rs:227-248 | The view reports the exact rounded-up fee and the rest, and with a band the floored fair value and the signed deviation in bps rounded away from zero |
| Rfq.CancelAcceptedIff | contracts/rfq/src/lib.rs:212-221 | A nonce can be retired if and only if it is not taken |
| Rfq.CheckPredictsSettle | contracts/rfq/src/lib.rs:227-248 | For a taker other than the vault, settle_quote succeeds if and only if check_quote does and both sides are funded; a failing check is the same error |
| Rfq.SettleMoves | contracts/rfq/src/lib.rs:155-210 | Both legs move exactly, with the fee to the vault, and nothing else |
| Rfq.NavBandIff | contracts/rfq/src/lib.rs:398-421 | The rounded deviation is within the band if and only if the exact proportion is, in both directions |
| RfqContract.Contract.RecordUse | contracts/rfq/src/lib.rs:351-361 | mark_used writes or refuses as specified |
| RfqContract.Contract.Settle | contracts/rfq/src/lib.rs:155-206 | settle_quote produces the specified world and fee, or an error and no change |
| RfqContract.Contract.Retire | contracts/rfq/src/lib.rs:212-221 | cancel_nonce produces the specified world, or an error and no change |
| Tranches.BuildTranches | backend/src/router/engine.ts:259-323 | The ladder loop with its mutable lastGood computes the specified ladder |
| Tranches.LadderChained | backend/src/router/engine.ts:272-323 | However quotes fail, a venue's usable tranches are laid end to end from 0 to the last good level |
| Tranches.LadderSound | backend/src/router/engine.ts:276-320 | No tranche's rate beats the venue's first-good-level rate, and its key is the truncated cost of a positive amount |
| LadderQuotes.TranchePaysGain | backend/src/router/engine.ts:298-305 | A good level's tranche expects the whole gain over the last good level's quote if that is within the first good level's rate, and otherwise the most that is |
| LadderQuotes.LadderPaysQuotes | backend/src/router/engine.ts:287-322 | Up to any level a venue's usable tranches expect in all at most its quote at the last good level, and exactly that if no gain beats the first good rate |
| Tranches.NonIncreasingIsRanked | backend/src/router/engine.ts:307-311 | Non-increasing tranche rates give ascending integer keys, truncation notwithstanding |
| Tranches.RankSorts | backend/src/router/engine.ts:336-338 | The stable sort orders by key and loses nothing |
| Tranches.RankOf | backend/src/router/engine.ts:336-338 | It sorts each venue's tranches within themselves, whatever the others do |
| Engine.AllocateSound | backend/src/router/engine.ts:349-391 | On any tranches the loop conserves the amount, keeps one positive entry per venue, beats no spot rate, and its expected total is the sum of the pro-rated shares |
| Engine.ShareIsFair | backend/src/router/engine.ts:364-368 | Pro-rating part of a tranche cannot beat the spot rate |
| NearOptimal.GreedyPours | backend/src/router/engine.ts:349-391 | On chained ladders in rank order the loop with its consumed bookkeeping fills each tranche in turn until the amount runs out |
| NearOptimal.KeyPinsRate | backend/src/router/engine.ts:307-311 | The integer key pins the true rate to one bps either way |
| NearOptimal.PourSplits | backend/src/router/engine.ts:349-391 | One key separates what greedy fills from what it leaves |
| NearOptimal.SumOfTranches | backend/src/router/engine.ts:349-391 | The exchange argument: moving any input from greedy's spread to another gains at most one bps of what is moved on each side |
| NearOptimal.PourLosesLittle | backend/src/router/engine.ts:364-368 | Rounding shares costs the greedy total less than one unit in all |
| NearOptimal.PouringIsNearOptimal | backend/src/router/engine.ts:336-391 | No spread of the same input over ranked tranches pays more than pouring + 1 + 2 x input / 10000 |
| ComputedRoute.LevelsSound | backend/src/router/engine.ts:131-141 | Probed levels are positive, strictly ascending, at most twice the amount, and include it |
| ComputedRoute.GreedyAllocate | backend/src/router/engine.ts:331-407 | greedyAllocate with its two maps, the overflow step and the dropping of zero-output venues, as specified |
| ComputedRoute.ComputeSegments | backend/src/router/engine.ts:157-172 | Allocation followed by the conservation step on the first largest segment, as specified |
| ComputedRoute.RouteIsSound | backend/src/router/engine.ts:331-428 | For arbitrary sane tranches: a non-empty route sums exactly to the input, has distinct venues, positive fair entries, and expects no less than the raw allocation |
| ComputedRoute.RouteIsExecutable | backend/src/router/engine.ts:159-172 | For arbitrary venue answers: a non-empty route has distinct venues, positive amounts summing exactly to amountIn, non-negative minimums, no expectation above a venue's first-good-level rate, and passes validate_segments |
| ComputedRoute.InstructionsValid | backend/src/router/engine.ts:220-236 | Legs keep venues and amounts; each minimum is its expected output less the slippage, rounded down |
| ComputedRoute.KeeperRouteAccepted | backend/src/router/engine.ts:220-236 | A slice the keeper sizes and routes is refused neither for size, pace or cadence nor for its segments |
| ComputedRoute.LevelsExact | backend/src/router/engine.ts:131-141 | The probed levels are the amount and every standard depth, rescaled, up to twice the amount |
| VenueFills.VenueFilled | backend/src/router/engine.ts:351-391 | Whatever else it fills, the loop takes a chained venue along its ladder: whole tranches, then perhaps part of the next at its pro-rated share |
| RouteQuotes.RouteFollowsAllocation | backend/src/router/engine.ts:392-407 | The route has exactly the venues the allocation expects to pay, each at that expectation and for at least that amount, and only one larger than all others takes more |
| RouteQuotes.VenueWithinQuote | backend/src/router/engine.ts:349-391 | Where a venue's keys ascend, filling it to a probed level that answered expects at most its own quote there, and exactly that if no gain beats its first good rate |
| RouteQuotes.SegmentWithinQuote | backend/src/router/engine.ts:157-172 | So does a computed route's segment on such a venue |
| RouteQuotes.UnorderedLadderCanOverExpect | backend/src/router/engine.ts:336-391 | A concrete ladder whose keys do not ascend, on which the loop expects more than the venue's own quote for the same amount |
| ComputedRoute.RankKeepsOrder | backend/src/router/engine.ts:336-338 | Ranking leaves a concave venue's ladder in its own order |
| ComputedRoute.RouteIsNearOptimal | backend/src/router/engine.ts:259-428 | When every venue's tranche rates are non-increasing, no other spread of the same input over the tranches, even fractional, pays more than the route's total + 1 + 2 x input / 10000 |
| QuoteCurve.ReadOff | backend/src/services/quote-curve-cache.ts:120-164 | The search loops compute the specified reading |
| QuoteCurve.ReadNeverOverQuotes | backend/src/services/quote-curve-cache.ts:120-164 | For sorted floored samples of a concave curve with F(0) >= 0, every answer is at most floor(F(x)) |
| QuoteCurve.ReadIsTight | backend/src/services/quote-curve-cache.ts:146-161 | An exact or bracketed answer also has F(x) < 1.6 x (answer + 1) |
| QuoteCurve.ReadAtSample | backend/src/services/quote-curve-cache.ts:124-126 | A sampled amount is answered with its sample |
| QuoteCurve.ReadBelowFirst | backend/src/services/quote-curve-cache.ts:134-140 | Just below the first sample an amount is answered if and only if the two are within 16/10 of each other, with the sample's average rate less one unit-rate, within one unit |
| QuoteCurve.ReadBetweenSamples | backend/src/services/quote-curve-cache.ts:149-161 | Between neighbouring samples an amount is answered if and only if they are within 16/10, positive and not falling, with their chord rounded down |
| QuoteCurve.ReadOutside | backend/src/services/quote-curve-cache.ts:121-146 | Nothing is answered above the last sample, for nothing, or without samples |
| QuoteCache.AskOnce | backend/src/services/quote-curve-cache.ts:80-112 | A simulation starts if and only if the points say nothing and none of that amount is in flight; otherwise the reply is the reading or the one in flight |
| QuoteCache.EvictionIsMinimal | backend/src/services/quote-curve-cache.ts:189-200 | Eviction drops no more keys than it must, and one with a fresh point only when none without is left |
| QuoteCache.EvictionDropsOldest | backend/src/services/quote-curve-cache.ts:196-199 | Among keys that all have a fresh point it drops the oldest |
| QuoteCache.EvictionIsWhole | backend/src/services/quote-curve-cache.ts:189-200 | It takes a key's points all or not at all |
| QuoteCache.RunKeepsHealthy | backend/src/services/quote-curve-cache.ts:75-200 | Over any interleaving of asking and landing, with failed simulations, lists stay sorted and distinct, every point came from the sampler, and there are at most MAX_KEYS keys |
| QuoteCache.InsertedKeeps | backend/src/services/quote-curve-cache.ts:179-187 | Insertion keeps that, replacing any point at the same amount |
| QuoteCache.FreshenedKeeps | backend/src/services/quote-curve-cache.ts:167-177 | Dropping lapsed points keeps that and returns exactly the fresh ones |
| QuoteCache.EvictedKeeps | backend/src/services/quote-curve-cache.ts:189-200 | Eviction leaves at most MAX_KEYS keys and damages no list |
| QuoteCache.InsertedSurvives | backend/src/services/quote-curve-cache.ts:179-200 | Eviction never takes the point just inserted |
| QuoteCache.RequoteIsFree | backend/src/services/quote-curve-cache.ts:75-114 | Asking again within the lifetime is answered exactly, without a simulation |
| QuoteCache.AskNeverOverQuotes | backend/src/services/quote-curve-cache.ts:75-114 | A cached answer is at most the venue's own as long as the samples still fresh are floors of one concave curve; one not below the first sample is within the ratio of it, and one below is given exactly when close, within one unit of the shaved average rate |
| QuoteCache.RunNeverOverQuotes | backend/src/services/quote-curve-cache.ts:75-114 | The same after any run from an empty cache, whatever failed, lapsed or was evicted on the way |
| QuoteCurveCache.Store.FreshPoints | backend/src/services/quote-curve-cache.ts:167-177 | freshPoints rewrites the map as specified |
| QuoteCurveCache.Store.Insert | backend/src/services/quote-curve-cache.ts:179-187 | insert rewrites the map as specified |
| QuoteCurveCache.Store.EvictIfNeeded | backend/src/services/quote-curve-cache.ts:189-200 | The two eviction passes over the insertion-ordered map, as specified |
| QuoteCurveCache.Store.Quote | backend/src/services/quote-curve-cache.ts:75-113 | quote up to its await: answer, join a simulation in flight, or start one |
| QuoteCurveCache.Store.Settle | backend/src/services/quote-curve-cache.ts:93-111 | quote after its await: a success is memoized, a failure is not |
| Pathfinder.Adjacency | backend/src/router/pathfinder.ts:136-154 | The filled and overwritten map holds exactly the pruned incident edges of every token |
| Pathfinder.PruningKeepsBest | backend/src/router/pathfinder.ts:144-152 | Pruning drops only Aqua edges, keeps the cap's worth, and never drops a deeper one for a shallower one |
| PathSearch.Finder.Visit | backend/src/router/pathfinder.ts:160-173 | The recursive closure pushing into a shared array computes the specified search |
| PathSearch.CandidatePaths | backend/src/router/pathfinder.ts:157-178 | candidatePaths reports the specified candidates over the pruned graph |
| PathSearch.SimpleIff | backend/src/router/pathfinder.ts:160-173 | What a frame may still append is exactly the rest of a simple path |
| PathSearch.WalkSound | backend/src/router/pathfinder.ts:160-173 | A frame adds only simple onward paths to the target |
| PathSearch.WalkBounded | backend/src/router/pathfinder.ts:160-173 | Each open frame can exceed the cap by one chain, and no frame entered at the cap adds any |
| PathSearch.WalkComplete | backend/src/router/pathfinder.ts:160-173 | Below the cap no simple path is missed |
| PathSearch.CandidatesExact | backend/src/router/pathfinder.ts:157-178 | Candidates are simple paths of 2 to MAX_HOPS edges of the pruned graph; all of them if fewer than CANDIDATE_CAP raw results were found; raw results are at most CANDIDATE_CAP + MAX_HOPS - 1 |
| PathSearch.CapCanBeOvershot | backend/src/router/pathfinder.ts:161-172 | The bound cannot be improved: for every cap >= 1 and number of hops >= 1 there are pools whose pruned graph yields exactly cap + hops - 1 raw results |

## Left out

- Authorization: who signed a call is the caller's obligation; runs only forbid a contract
  to sign for itself and anyone to move a contract's holdings.
- Storage lifetimes of persistent entries, `bump_ttl` and archival; only the lifetime of
  the RFQ's temporary replay records is modelled.
- Admin rotation, events, FeeVault withdrawals, read-only getters and
  `get_expired_timer_orders`: easy members.
- `update_oracle_price` and SEP-40 reads with decimals: the directed price is an input,
  and its jump limit is not modelled.
- Overflow of plain i128, u64 or u32 arithmetic: integers are unbounded; only muldiv
  results outside i128 abort.
- The Router registered with the SwapBook and the venue registries change only by the calls
  in `Lifetime.Call` and `TwapRuns.TwapCall`; re-pointing the Router is not one of them.
- Contracts, vault, makers, takers and partners are distinct addresses only where a
  statement says so; otherwise formulas count coinciding holders correctly.
- Router and TwapBook `register_venue` do not call the venue back; adapters never re-enter.
- Quote.await: the cache is modelled as two atomic steps around the simulation, and the
  clock read for the stamp and for the eviction cutoff is one value.
- QuoteCurve.ReadNeverOverQuotes: sampled outputs are taken as non-negative, as token
  amounts are; below the first sample a negative one would break it.
- Quote cache key strings: a flight is keyed by the pair of key and amount.
- Floating-point figures of the engine (blended, impact and effective bps) and the loss in
  converting a large integer key to a float: the key is the exact truncated integer.
- ComputedRoute.GreedyAllocate: which of several equally large venues receives the overflow
  is left open, since the source's comparator does not order equals.
- ComputedRoute.RouteIsExecutable: one adapter per venue id and at most one answer per
  probed level are taken from the registry and adapter interfaces.
- Pathfinder: liquidity is an integer that is only compared; building edges from discovered
  pools, ranking by log-liquidity, quoting hop by hop, caches and time budgets are out.
- Keeper rotation, the gate on eligible pairs, transaction submission and its local price pre-check; the probe's answer
  is an input.
- RouteQuotes.VenueWithinQuote: one way; a ladder whose keys do not ascend may still stay
  within its quotes.
- What the planner fetches is taken to be the contract's own state, as of the same ledger.
- Express handlers, SDK, frontend, wallets, discovery, screening and the RFQ backend's
  awaited state machine.
