# CISUM contracts: a verified model

The repository is a family of EOSIO smart contracts: staking, ticket lotteries over an NFT ledger, a blind box, inviter
rewards, a token with spending badges, role tables, and the arithmetic and text helpers they share. This project models their
logic in Dafny 4.11 and proves what their design relies on. `dafny verify dfyconfig.toml` checks all of it.

Each contract is modelled as a transactional state machine. Tables are maps or sequences, an action is one atomic step, a failed
`check` is `Abort` and leaves the state as it was, and a run is any sequence of actions by anyone at any time, failed ones
included. The modules form these layers:

- `...Model` (and `TicketLedger`, `TicketWorld`): the state and each action as a function from state to `Option` of state, with
  the machine widths of the C++ written out (`WrapU32`, `WrapS64`, `TruncDiv`, the 2^62 - 1 bound of assets).
- `...Contract` (and `AmountCode`, `SafeInt`, `SwapPrice`): classes whose fields are the tables and whose methods update them in
  place, loop by loop, each proved to commit exactly what the function says or to change nothing.
- `...Terms` (and `PosDeposit`): for each main operation, in the states that runs reach, exactly when it commits and the whole state
  it then leaves, without the helper functions of the model.
- the other modules: invariants over all runs and the main theorems, proved about the functions.

| modules | contract |
|---|---|
| `PosModel`, `PosContract`, `PosLedger`, `PosInterest`, `PosCollect`, `PosPatience`, `PosRedeem`, `PosWaiting`, `PosSolvency`, `PosTerms`, `PosDeposit`, `SafeMath` | pos.cisum, staking |
| `TicketLedger`, `GrabModel`, `ShowModel`, `TicketWorld`, `TicketEscrow`, `TicketRuns`, `TicketDelivery`, `TicketClearing`, `TicketPayouts`, `TicketRefunds`, `SaleClearing`, `TicketAudit`, `GrabAudit`, `UpgradeAudit`, `ShowStock`, `ShowRecycling`, `GrabTerms`, `UpgradeTerms`, `ShowTerms`, `TicketTerms`, `TicketSettings`, `TicketContract`, `GrabContract`, `ShowContract` | ticket.cvnft, grab.cisum and show.cisum together |
| `BoxModel`, `BoxDraw`, `BoxLedger`, `BoxTerms`, `BoxContract` | blindboxgame |
| `FundModel`, `FundLedger`, `FundPayouts`, `FundTerms`, `FundContract` | poh.cisum, inviter funds |
| `TokenModel`, `TokenLedger`, `TokenBadges`, `TokenTerms`, `TokenContract` | cisum.token |
| `SafeInt`, `AmountText`, `AmountRoundTrip`, `AmountCode` | `safe<T>`, the amount printer and the asset parser |
| `SwapPrice`, `PopMining` | cisumreserve, the same conversion in poh.cisum, and pop.cisum |
| `AuthModel`, `AuthRelation`, `AuthContract` | flon.auth |
| `Eosio`, `Sums` | names, assets, checked arithmetic; sums over tables |

In the ticket contracts one step is a whole transaction: `TicketWorld.Send` runs a transfer, the notification it raises in
grab.cisum or show.cisum, and the transfers that one queues. Anyone may send any tickets with any memo to any of them.

## What the proofs found

Properties that hold only under a condition, with the condition proved exact or the failure shown:

- Staking is solvent in every run exactly for some choices of principal token (`SolventIffGoodPrincipal`).
- `delplan` keeps the ledger exactly when the plan holds no deposits.
- Splitting a deposit never helps exactly when the interest on the whole fits 64 bits.
- An early withdrawal whose penalty rounds to zero always aborts, and so does one whose penalty reaches the deposit.
- The fine rate rounds half up, where the comment in the source says ceiling; the model follows the code.
- The thresholds of the yearly rates are cut to 64 bits, so on a token with 16 or 18 decimals, and on no other, some amounts earn the
  rate of another tier (`PublishedRatesIff`).
- A first `delrushsale` call unbalances the books exactly when there are more than 1000 orders.
- A blind box loses count exactly when the NFTs ever deposited reach 2^64, since its counters are not checked.
- Waiting before an early withdrawal can cost the owner exactly when the maximum penalty exceeds 2^64, so that early penalties
  wrap around to small ones (`WaitingIsFreeIff`, `WaitingCostsHalf`); `setplan` sets no bound on the rate.
- Interest left uncollected until it outgrows 64 bits turns negative and cannot be collected (`AccruedGrowsToTermIff`,
  `SeventeenYearsTooLate`).
- "sold overflow" stops a sale that is within stock exactly when it exceeds stock + lent - returned. grab.cisum accepts stock for a
  sale from any account, so more can come back than was lent (`RecycledSeatsCannotBeSold`).
- Roles and permissions stay in order whatever the hash, but two permissions that share a prefix are taken for one
  (`CollisionConfuses`, `RefinesIffInjective`).
- The blind box as written never opens: its `set` cannot add rows.
- The least 64-bit amount is printed with two signs and misread without an error; amounts of 2^62 and above print and parse as
  numbers but are not assets.
- Changing pop.cisum's maximum with `setmaxreward` breaks available + issued = maximum, except in the cases proved.
- A swap quotient that does not fit 64 bits is cut before it is checked.
- Badges are earned again after an account row is closed and reopened. Spending of any symbol counts towards rules for CISUM,
  because the awards look only at the amount.

## Model

| member | source | states |
|---|---|---|
| PosLedger.ReachableBalances | contracts/pos.cisum/src/pos.cisum.cpp:103-537 | in every state reachable without `delplan`, re-initialisation included, each plan's `deposit_available` equals the sum of its open accounts' deposits, every account belongs to a plan, and no pool is negative |
| PosLedger.RunKeepsLedger | contracts/pos.cisum/src/pos.cisum.cpp:103-537 | the same from any state in which it holds |
| PosLedger.DelPlanKeepsLedgerIff | contracts/pos.cisum/src/pos.cisum.cpp:539-546 | deleting a plan keeps that ledger if and only if the plan holds no deposits |
| PosLedger.PoolIsAllRefuels | contracts/pos.cisum/src/pos.cisum.cpp:186-248 | `interest_available + interest_redeemed` of a plan grows by exactly the refuels it accepted, over every run without `delplan`: interest payments, points and settings neither create nor lose any |
| PosLedger.TotalIsZeroIffEmpty | contracts/pos.cisum/src/pos.cisum.cpp:299-436 | a plan's total is zero exactly when no account is open on it, and never negative |
| PosSolvency.SolventIffGoodPrincipal | contracts/pos.cisum/src/pos.cisum.cpp:79-537 | in every run without `delplan` or a change of principal token the contract holds at least all deposits plus the interest pools payable in that token, if and only if the principal is not MUSIC of sing.token and, when its symbol is CISUM, its bank is cisum.token |
| PosSolvency.RunKeepsCovered | contracts/pos.cisum/src/pos.cisum.cpp:103-537 | the balance of a good principal covers deposits plus every pool kept in its symbol, after every run |
| PosSolvency.MusicPrincipalFails | contracts/pos.cisum/src/pos.cisum.cpp:332-436 | a run that leaves the contract insolvent when MUSIC is the principal, because rewards are paid out of it |
| PosSolvency.CisumPrincipalFails | contracts/pos.cisum/src/pos.cisum.cpp:438-537 | a run that leaves it insolvent when the principal is a CISUM symbol of another bank, because pools are filled through cisum.token |
| PosInterest.RawIsExactWrapped | contracts/pos.cisum/src/pos.cisum.cpp:72-76 | interest through two 128-bit roundings is the exact nested floor, cut to 64 bits, for every rate a scheme can give |
| PosInterest.RateMonotone | contracts/pos.cisum/src/pos.cisum.cpp:25-70 | no scheme gives a larger deposit of the same token a lower rate, and none exceeds 12% |
| PosInterest.SplittingNeverHelpsIff | contracts/pos.cisum/src/pos.cisum.cpp:25-76 | for every scheme, term and amounts: when the interest on the two parts fits 64 bits, one deposit earns at least as much as the parts if and only if the interest on the whole fits too |
| PosInterest.WrappedInterestShrinks | contracts/pos.cisum/src/pos.cisum.cpp:72-76 | a 600-year deposit whose interest does not fit earns less than two of half its size |
| PosCollect.CollectReachesAccrued | contracts/pos.cisum/src/pos.cisum.cpp:186-235 | right after a collection at `now` the account has collected exactly min(I(now - created), term interest), with I as in `_term_interest` |
| PosCollect.ReachableIsSound | contracts/pos.cisum/src/pos.cisum.cpp:186-248 | in every chronological run without `delplan` each account has collected exactly what had accrued at its last collection, and MUSIC returned stays within MUSIC rewarded |
| PosCollect.CollectionIsPathIndependent | contracts/pos.cisum/src/pos.cisum.cpp:186-235 | accounts on the same terms that last collected at the same time have collected the same, whatever the two runs that led there |
| PosCollect.AccruedGrowsToTermIff | contracts/pos.cisum/src/pos.cisum.cpp:72-76 | what an account may collect never turns negative up to a time if and only if no time has passed, or the term interest on record is not negative and the exact interest still fits 64 bits then; it is then monotone, at most the term interest, and exactly the interest of the deposit-time term once that has run |
| PosPatience.SeventeenYearsTooLate | contracts/pos.cisum/src/pos.cisum.cpp:208-218 | a run from a fresh contract, for every deposit time whose 17 years end on the 32-bit clock: with the largest deposit at 12% on a one-year term and the pool filled, collecting after one year yields the whole term interest, and collecting first after 17 aborts |
| PosCollect.WaitingSeventeenYears | contracts/pos.cisum/src/pos.cisum.cpp:208-218 | the same abort in any state with such an account |
| PosCollect.NothingAfterTerm | contracts/pos.cisum/src/pos.cisum.cpp:214-218 | after the term interest has been collected every further `collectint` aborts |
| PosCollect.ZeroTermTakesNoDeposit | contracts/pos.cisum/src/pos.cisum.cpp:321-329 | an interest plan with a zero-day term accepts no deposit, because the interest computation rejects a zero duration |
| SafeMath.MulDownIsFloor | contracts/pos.cisum/include/safemath.hpp:17-20 | `mul_down` is floor(a * b / p) while the product fits 128 bits, although it rounds twice |
| SafeMath.MulUpIsRoundHalfUp | contracts/pos.cisum/include/safemath.hpp:10-14 | `mul_up` rounds to nearest, halves up; it is not a ceiling |
| PosRedeem.CapNeverBinds | contracts/pos.cisum/src/pos.cisum.cpp:152-158 | the safety cap on the fine rate never changes the rate, for all 64-bit settings and with 128-bit wrap-around |
| PosRedeem.FineRateIsRoundedIff | contracts/pos.cisum/src/pos.cisum.cpp:144-158 | the fine rate is max * remaining / total rounded half up if and only if 10 * max * remaining fits 128 bits, for every term that fits 63 bits; the source comment says ceiling |
| PosRedeem.WrappedRate | contracts/pos.cisum/src/pos.cisum.cpp:144-158 | a plan that `setplan` accepts whose rate at deposit time is below its maximum rate |
| PosRedeem.PenaltyFallsWithTime | contracts/pos.cisum/src/pos.cisum.cpp:139-163 | while the products fit 128 bits: the penalty at deposit time is deposit * max rate, rounded, if and only if that fits 64 bits, and then it is never negative and never rises with time |
| PosRedeem.WithdrawSplitsDeposit | contracts/pos.cisum/src/pos.cisum.cpp:131-183 | a committed withdrawal pays out exactly the deposit: penalty plus redeemed part; an early one is charged more than zero and less than the deposit, a mature one nothing |
| PosRedeem.EarlyWithdrawIff | contracts/pos.cisum/src/pos.cisum.cpp:103-183 | an early withdrawal that passes every other gate commits if and only if its penalty is positive and below the deposit |
| PosRedeem.FreeEarlyRedemptionAborts | contracts/sing.token/src/sing.token.cpp:111-129 | a plan that allows early redemption free of charge never lets one through: transferring a zero penalty aborts in the token |
| PosRedeem.LaterRedeemsMore | contracts/pos.cisum/src/pos.cisum.cpp:131-183 | at fixed settings, for every term whose product with the rate fits 128 bits, the later of two successful withdrawals pays the owner at least as much, as long as the maximum penalty is at most 2^64 |
| PosWaiting.WaitingIsFreeIff | contracts/pos.cisum/src/pos.cisum.cpp:131-183 | for every term that ends on the 32-bit clock and every maximum rate up to 49.99% per second of it: no successful withdrawal pays less than an earlier one if and only if the maximum penalty is at most 2^64 |
| PosWaiting.WaitingCostsHalf | contracts/pos.cisum/src/pos.cisum.cpp:139-163 | a run with a one-day plan that fines up to 800% and the largest deposit: withdrawing at 81000 seconds redeems less than at 43199 seconds, 2305843009213693952 being charged instead of 461168601842735 |
| PosWaiting.SteepPlansPayNobodyEarly | contracts/pos.cisum/src/pos.cisum.cpp:139-163 | a plan whose rate falls by 400% a second: every early penalty wraps around to a negative one, so nobody can redeem early and waiting is free although the maximum penalty exceeds 2^64 |
| PosWaiting.HarshPenalties | contracts/pos.cisum/src/pos.cisum.cpp:139-163 | those two penalties, from the wrapped products |
| PosTerms.FreeWithdrawIff | contracts/pos.cisum/src/pos.cisum.cpp:103-184 | in every reachable state: a deposit on a plan without a term at any time, and one on a term plan from `created_at` + days * 86400 (on the 32-bit clock) on, can be withdrawn if and only if the caller is owner or admin, the MUSIC reward is back and the contract can pay; the owner is then sent exactly the deposit, all of it counts as redeemed, the account is gone and nothing else changes |
| PosTerms.LockedUntilTermEnds | contracts/pos.cisum/src/pos.cisum.cpp:133-138 | before that time a deposit on a term plan without early redemption cannot be withdrawn |
| PosTerms.EarlyWithdrawCosts | contracts/pos.cisum/src/pos.cisum.cpp:139-183 | before that time, with early redemption: the rate is the maximum rate times the time left over the term, the fine that many ten-thousandths of the deposit, both to the nearest integer; the withdrawal commits if and only if the fine lies strictly between zero and the deposit and all else is there, and then the fine goes to the penalty account and the rest to the owner |
| PosTerms.CollectTerms | contracts/pos.cisum/src/pos.cisum.cpp:186-248 | in every reachable state a collection commits if and only if the caller is owner or admin, the plan pays by the year, more than 86400 seconds have passed since the last one, and plan and contract hold a positive amount due: the interest since the deposit, or of the whole term if less, without what was collected; exactly that is sent to the owner |
| PosTerms.ReturnTerms | contracts/pos.cisum/src/pos.cisum.cpp:390-436 | MUSIC sent back counts towards the reward of the sender's own deposit, never beyond it, and changes nothing else |
| PosTerms.RefuelTerms | contracts/pos.cisum/src/pos.cisum.cpp:268-297 | a refuel is taken in the plan's own interest token only, and adds to its pool alone |
| PosTerms.SetPlanTerms | contracts/pos.cisum/src/pos.cisum.cpp:473-537 | when `setplan` commits, and that it writes settings only: the totals of an existing plan stay, and the symbol of a pool once it was used |
| PosTerms.OnlySignersAct | contracts/pos.cisum/src/pos.cisum.cpp:79-546 | over every run from the start, `delplan` included: plans are configured and deleted by pos.cisum itself only, deposits are touched by their owners or pos.cisum only, and the treasury is exactly the MUSIC sent to it |
| PosTerms.ReachableIsReached | contracts/pos.cisum/src/pos.cisum.cpp:103-537 | those states are all chronological runs without `delplan`: ledger, interest and the range of every total hold there |
| PosDeposit.DepositTerms | contracts/pos.cisum/src/pos.cisum.cpp:288-389 | a transfer of the principal token as a deposit commits if and only if the plan accepts it and the contract can pay what it earns at once; it then opens one account on the plan's terms, moves one plan and sends at most two payments, both to the depositor; term interest, MUSIC and points are exact floors if and only if they have 63 bits |
| PosDeposit.PointsEarned | contracts/pos.cisum/src/pos.cisum.cpp:360-386 | on the states before and after a nestpont deposit: the pool falls by, and the depositor is sent, p points with p * 3650000 <= scaled * rate * days < (p + 1) * 3650000, where scaled is the deposit in units of the reward token rounded down, if and only if that has 63 bits |
| PosDeposit.MorePointsForMore | contracts/pos.cisum/src/pos.cisum.cpp:360-386 | a larger deposit for a longer term earns at least as many points |
| PosDeposit.PublishedRatesIff | contracts/pos.cisum/src/pos.cisum.cpp:25-70 | every amount of a token earns the published yearly rate of its tier, on every scheme, if and only if the token does not have 16 or 18 decimals |
| PosContract.PosCisum.SetPlan | contracts/pos.cisum/src/pos.cisum.cpp:473-537 | the action commits exactly the new plan row its specification gives, or aborts and changes nothing |
| PosContract.PosCisum.Withdraw | contracts/pos.cisum/src/pos.cisum.cpp:103-184 | commits exactly the withdrawal that `FreeWithdrawIff`, `LockedUntilTermEnds` and `EarlyWithdrawCosts` describe, or leaves everything alone |
| PosContract.PosCisum.CollectInt | contracts/pos.cisum/src/pos.cisum.cpp:186-248 | a collection moves exactly the interest due from the pool to the owner and stamps the account, or leaves everything alone |
| PosContract.PosCisum.OnDeposit | contracts/pos.cisum/src/pos.cisum.cpp:288-389 | commits exactly the deposit that `DepositTerms` describes, or leaves everything alone |
| PosContract.PosCisum.TransferIn | contracts/pos.cisum/src/pos.cisum.cpp:250-471 | every incoming token is credited and then handled by bank, symbol and memo as specified, or the whole transfer aborts |
| PosContract.PosCisum.ComputePenalty | contracts/pos.cisum/src/pos.cisum.cpp:139-163 | the stepwise computation with its casts equals the penalty function |
| TicketRuns.RunKeepsEscrowed | contracts/grab.cisum/src/grab.cisum.cpp:313-405 | in every reachable state of the three contracts, for every ticket kind, grab.cisum holds at least the stock of all sales and upgrades plus all payments in unsettled logs, show.cisum holds at least its stock, and each supply equals the sum of balances within its maximum |
| TicketRuns.StepKeepsEscrowed | contracts/grab.cisum/src/grab.cisum.cpp:523-829 | every single transaction, with its inline transfers and notifications, preserves that |
| TicketRuns.SendKeepsEscrowed | contracts/grab.cisum/src/grab.cisum.cpp:620-762 | an incoming ticket transfer, whatever its memo and number of assets, preserves it when the sender can spare what it sends |
| TicketRuns.StockIsBackedBySupply | contracts/grab.cisum/src/grab.cisum.cpp:644-667 | a sale's remaining tickets never exceed what grab.cisum holds, hence never the supply or its maximum |
| TicketEscrow.PayGrabConserves | contracts/grab.cisum/src/grab.cisum.cpp:523-617 | a paid grab lowers what is owed by exactly the ticket it sends |
| TicketEscrow.JoinConserves | contracts/grab.cisum/src/grab.cisum.cpp:692-762 | joining an upgrade raises what is owed by the payment and lowers it by the prize sent |
| TicketEscrow.SubGrabConserves | contracts/grab.cisum/src/grab.cisum.cpp:313-357 | returning stock lowers what is owed by the amount returned |
| TicketEscrow.DelUpgradeConserves | contracts/grab.cisum/src/grab.cisum.cpp:776-829 | a clean-up call sends exactly the payments of the logs it settles and owes no more than before less that |
| TicketPayouts.GrabberGetsPrize | contracts/grab.cisum/src/grab.cisum.cpp:523-617 | after a paid grab the new order is the buyer's and records the draw, the buyer's balance grows by exactly the ticket won, and nobody else but grab.cisum is affected |
| TicketPayouts.ClearingPaysBack | contracts/grab.cisum/src/grab.cisum.cpp:793-820 | a clean-up call gives every account exactly what it lost in the logs settled, and the burn account exactly what winners paid |
| TicketRefunds.EveryPayerIsRefunded | contracts/grab.cisum/src/grab.cisum.cpp:774-829 | over any run after the end of an upgrade: once its row is gone, the clean-up calls have brought every account all that it paid and did not win with, each payment once, and the burn account all that winners paid |
| GrabTerms.PayGrabTerms | contracts/grab.cisum/src/grab.cisum.cpp:523-617 | in every reachable world a paid grab commits if and only if the token is listed and comes from its bank, amount and symbol are the price on record, the sale is open and has stock, the grab id is unused, the buyer has a grab left and has not won; it adds one order, and the buyer has one ticket more exactly when the draw is below the chance of the sale |
| GrabTerms.GrabsLeftAreOrders | contracts/grab.cisum/src/grab.cisum.cpp:554-565 | until somebody starts to delete the sale, the grabs left are the maximum less the buyer's orders |
| GrabTerms.SaleTakesPricePerOrder | contracts/grab.cisum/src/grab.cisum.cpp:547-549 | over every run in which the price of a sale stands and it is not deleted, what its grabs paid is the price times the orders added, and nothing was paid in another token |
| UpgradeTerms.JoinTerms | contracts/grab.cisum/src/grab.cisum.cpp:692-762 | in every reachable world tickets sent to join an upgrade are taken if and only if the user has them all, the first asset is exactly the payment asked for, the upgrade is open and has stock, the grab id is unused and the user has not won; the join is logged and the user has one target ticket more exactly when the draw is below the chance |
| UpgradeTerms.SaleStockTerms | contracts/grab.cisum/src/grab.cisum.cpp:644-667 | in every reachable world tickets sent as stock for a sale are taken if and only if the user has them all and the first asset is of the kind on sale; that asset alone adds to the stock |
| UpgradeTerms.UpgradeStockTerms | contracts/grab.cisum/src/grab.cisum.cpp:669-690 | the same for the target tickets of an upgrade |
| UpgradeTerms.SubGrabTerms | contracts/grab.cisum/src/grab.cisum.cpp:313-357 | stock can be taken back, by those allowed to, up to what is left, from sales and upgrades alike, and names their show |
| TicketTerms.TransferCommitsIff | contracts/ticket.cvnft/src/ticket.cvnft.cpp:139-171 | a transfer commits if and only if the parties differ, it is allowed, every amount is positive, and for each kind the sender has all that the list carries; no receiver overflows |
| TicketTerms.IssueTerms | contracts/ticket.cvnft/src/ticket.cvnft.cpp:86-113 | only the issuer is issued tickets, within the maximum, and nothing else changes |
| TicketTerms.RetireTerms | contracts/ticket.cvnft/src/ticket.cvnft.cpp:115-137 | retired tickets come off the issuer's own balance and the supply, and nothing else changes |
| TicketSettings.RunKeepsSettings | contracts/grab.cisum/src/grab.cisum.cpp:201-521 | in every reachable world, however sales and upgrades were added and changed: each opens before it closes, asks a positive price in a listed token or a positive number of another ticket, wins with a chance of at most one, and lets every buyer grab at least once |
| TicketSettings.SetSaleTerms | contracts/grab.cisum/src/grab.cisum.cpp:258-311 | in every such state a change of settings commits if and only if it is authorized and leaves the sale in order; what is not given, and stock and counters, stay |
| TicketSettings.SetUpgradeTerms | contracts/grab.cisum/src/grab.cisum.cpp:470-521 | the same for an upgrade, whose new payment must be a ticket that exists |
| TicketLedger.MoveAllEffect | contracts/ticket.cvnft/src/ticket.cvnft.cpp:139-171 | a transfer of many assets moves exactly their sum per kind, all amounts positive, and keeps supplies equal to balances |
| TicketLedger.IssueKeepsSupply | contracts/ticket.cvnft/src/ticket.cvnft.cpp:86-113 | issuing keeps supply equal to all balances and within the maximum |
| TicketLedger.RetireKeepsSupply | contracts/ticket.cvnft/src/ticket.cvnft.cpp:115-137 | retiring keeps supply equal to all balances and non-negative |
| TicketLedger.CreditNeverOverflows | contracts/ticket.cvnft/src/ticket.cvnft.cpp:185-198 | crediting what was debited elsewhere never overflows a balance |
| TicketAudit.RunKeepsBooks | contracts/grab.cisum/src/grab.cisum.cpp:523-617 | over every run with no `delrushsale` on a sale: available = total - grabbed >= 0, grabbed = winning orders, total_grabs = orders modulo 2^32, each stat = that user's orders, grab ids distinct, nobody orders after winning; all row ids in use were handed out by the counter |
| TicketAudit.DelSaleKeepsBooksIff | contracts/grab.cisum/src/grab.cisum.cpp:361-405 | in every reachable state, the first `delrushsale` call for a sale keeps its books balanced if and only if there are at most 1000 orders, which is also when it erases the row |
| UpgradeAudit.RunKeepsUpgrade | contracts/grab.cisum/src/grab.cisum.cpp:692-762 | over every run with no clean-up call for an upgrade: available = total - grabbed >= 0, grabbed = winning logs, total_grabs = logs modulo 2^32, each log won one target ticket or none, grab ids distinct, nobody joins after winning |
| GrabAudit.OneWinEach | contracts/grab.cisum/src/grab.cisum.cpp:562-565 | two winning orders of one sale are by different users |
| TicketDelivery.ClearingCommitsIff | contracts/grab.cisum/src/grab.cisum.cpp:776-829 | in every reachable state a clean-up call commits if and only if it is authorized, the upgrade exists and has ended: no refund or burn can stop it |
| TicketDelivery.GrabPrizeNeverFails | contracts/grab.cisum/src/grab.cisum.cpp:523-617 | in every reachable state a paid grab that passes its own checks commits, prize transfer included |
| TicketDelivery.JoinPrizeNeverFails | contracts/grab.cisum/src/grab.cisum.cpp:692-762 | in every reachable state tickets sent to grab.cisum arrive whenever the transfer works and the memo is accepted: the prize of a join never fails |
| TicketClearing.UpgradeClearsInPages | contracts/grab.cisum/src/grab.cisum.cpp:774-829 | from any reachable state with an ended upgrade of n logs, over every further run that does not reset it, each transaction at its own time and anything else in between: the clean-up calls settle the logs in order, each once, 100 a call, and the row is erased by call number max(1, ceil(n / 100)) and no earlier |
| SaleClearing.SaleClearsInPages | contracts/grab.cisum/src/grab.cisum.cpp:359-405 | from any reachable state with a sale of n orders and m stats, over every further run in which no grab of it commits, each transaction at its own time and anything else in between: the authorized calls that are forced or outside the window as it then is remove the first 1000 orders each, then the first 1000 stats each, and the row is erased by call number max(1, ceil(n / 1000)) + max(1, ceil(m / 1000)) - 1 and no earlier |
| GrabContract.GrabCisum.OnTransferCisum | contracts/grab.cisum/src/grab.cisum.cpp:523-617 | commits exactly the grab that `PayGrabTerms` describes, or aborts unchanged |
| GrabContract.GrabCisum.ProcessRushUpgrade | contracts/grab.cisum/src/grab.cisum.cpp:692-762 | joining an upgrade logs the payment, draws once and queues the prize exactly as specified, or leaves everything alone |
| GrabContract.GrabCisum.ProcessAddRushSale | contracts/grab.cisum/src/grab.cisum.cpp:644-667 | stock for a sale raises total and remaining tickets by the amount, for the right ticket kind only |
| GrabContract.GrabCisum.OnTransferTicket | contracts/grab.cisum/src/grab.cisum.cpp:620-642 | the memo selects what the first asset of a transfer does; anything else aborts |
| GrabContract.GrabCisum.SubGrab | contracts/grab.cisum/src/grab.cisum.cpp:313-357 | returned stock is taken off total and remaining tickets, never more than remain, and the show it returns to is named |
| GrabContract.GrabCisum.DelRushSale | contracts/grab.cisum/src/grab.cisum.cpp:361-405 | the two paged erase loops remove exactly the first 1000 orders and then the first 1000 stats, and the row when both are empty |
| GrabContract.GrabCisum.DelUpgrade | contracts/grab.cisum/src/grab.cisum.cpp:776-829 | the paged loop settles exactly the first 100 logs in order and erases the row when none is left |
| TicketContract.CvTicket.Issue | contracts/ticket.cvnft/src/ticket.cvnft.cpp:86-113 | commits exactly the specified supply and balance, or aborts unchanged |
| TicketContract.CvTicket.Retire | contracts/ticket.cvnft/src/ticket.cvnft.cpp:115-137 | takes the amount off the supply and the issuer's balance, or aborts unchanged when the balance is short |
| TicketContract.CvTicket.Transfer | contracts/ticket.cvnft/src/ticket.cvnft.cpp:139-171 | the loop moves all assets or, when any one fails, none |
| ShowStock.RunKeepsStock | contracts/show.cisum/src/show.cisum.cpp:61-84 | after every run that does not close the show, stock + sold + (lent - returned) = total modulo 2^32 and issued = sold, for every ticket row |
| ShowStock.OrderlyRunIsExact | contracts/show.cisum/src/show.cisum.cpp:497-541 | when mints fit 32 bits and returns never exceed what was lent, the equation is exact |
| ShowStock.OverflowChecksNeverFire | contracts/show.cisum/src/show.cisum.cpp:61-84 | in such runs neither the "sold overflow" nor the "stock overflow" check can stop an action |
| ShowStock.SoldOverflowIff | contracts/show.cisum/src/show.cisum.cpp:431-438 | after every run that does not close the show, while the row can be told modulo 2^32: a sale within stock is stopped by "sold overflow" if and only if it exceeds stock + lent - returned, and there is such a sale if and only if more came back than was lent and stock is left |
| ShowRecycling.RecycledSeatsCannotBeSold | contracts/show.cisum/src/show.cisum.cpp:431-438 | a run from the start in which five more tickets come back than were lent: five are in stock of an open show, held by the contract, and a sale of one aborts |
| ShowStock.CoveredRecipientsAreServed | contracts/show.cisum/src/show.cisum.cpp:441-495 | a batch covered by the stock serves every recipient, and takes exactly count times recipients from the stock |
| ShowStock.BatchCommitsIff | contracts/show.cisum/src/show.cisum.cpp:441-495 | in an orderly run a batch that passes its own checks commits if and only if it hands out at least one ticket each, the sale is open and no recipient is one of the two contracts: no inner `issue` fails for stock, tickets or overflow |
| ShowTerms.IssueTerms | contracts/show.cisum/src/show.cisum.cpp:380-439 | in an orderly run `issue` to a user commits if and only if it is authorized, the show is on sale and has the tickets; it moves that many from contract to user and from stock to sold, in numbers, and nothing else |
| ShowTerms.BatchTerms | contracts/show.cisum/src/show.cisum.cpp:441-495 | in an orderly run `batchreward` commits if and only if it is authorized, names 1 to 500 users, the show is on sale and its stock covers all; each user then has `count` tickets more for each time listed, and no other balance changes |
| ShowTerms.LendTerms | contracts/show.cisum/src/show.cisum.cpp:497-541 | in every reachable world tickets are lent to a rush sale if and only if that is authorized, the show has them in stock and they are of the kind on sale; stock and tickets move together |
| ShowTerms.ReturnTerms | contracts/show.cisum/src/show.cisum.cpp:61-84 | in every reachable world stock of a sale goes back to its show if and only if that is authorized, the sale has it left and the total leaves room modulo 2^32; stock and tickets move together |
| ShowTerms.MintTerms | contracts/show.cisum/src/show.cisum.cpp:125-171 | in every reachable world tickets are minted if and only if that is authorized, the contract issues the kind and its supply allows it; all are held, in stock and in the total, and nothing else changes |
| ShowTerms.ShrinkTerms | contracts/show.cisum/src/show.cisum.cpp:543-559 | in an orderly run tickets are retired from a show if and only if that is authorized and they are in stock; stock and total fall together, in numbers |
| ShowContract.ShowCisum.Issue | contracts/show.cisum/src/show.cisum.cpp:380-439 | commits exactly the specified counters, or aborts unchanged |
| ShowContract.ShowCisum.OnTransferTicket | contracts/show.cisum/src/show.cisum.cpp:61-84 | returned tickets go back into stock, modulo 2^32 and only up to the total |
| ShowContract.ShowCisum.IssueToGrab | contracts/show.cisum/src/show.cisum.cpp:497-541 | lent tickets leave the stock, never more than there are |
| ShowContract.ShowCisum.BatchReward | contracts/show.cisum/src/show.cisum.cpp:441-495 | one inline issue per recipient in order, exactly when the list, the product and the stock check allow |
| BoxDraw.PickIff | contracts/blindboxgame/src/blindbox.cpp:260-267 | a random index stops the prefix-sum loop on an entry if and only if it lies between the running totals before and after that entry |
| BoxDraw.IndicesPerEntry | contracts/blindboxgame/src/blindbox.cpp:260-267 | exactly as many of the indices 1 to the total pick an entry as it holds NFTs |
| BoxDraw.WordsPerOutcome | contracts/blindboxgame/src/blindbox.cpp:300-311 | of the accepted 64-bit words, outcome 1 has floor((2^64 - 1) / range) + 1 and every other outcome exactly floor((2^64 - 1) / range) |
| BoxDraw.WordsPerEntry | contracts/blindboxgame/src/blindbox.cpp:256-311 | the whole draw: an entry with a of n NFTs is drawn by a * floor((2^64 - 1) / n) accepted words, the entry with the smallest id by one more |
| BoxDraw.RandAnswers | contracts/blindboxgame/src/blindbox.cpp:300-311 | rejection sampling answers within 1 to range, and has no answer only if it rejects every word it is given |
| BoxTerms.DrawIsFair | contracts/blindboxgame/src/blindbox.cpp:256-311 | of all hash words, a draw takes NFT m with count(m) * floor((2^64 - 1) / n) of them, n being the NFTs in the box, and with one more if m is the smallest id |
| BoxTerms.FirstAccepted | contracts/blindboxgame/src/blindbox.cpp:300-311 | a draw that rejects words falls as the first word it accepts |
| BoxLedger.DrawFacts | contracts/blindboxgame/src/blindbox.cpp:256-281 | a draw takes one NFT of the reported kind out of the box, keeps both counters, and fails only for want of an accepted word |
| BoxLedger.BuyFacts | contracts/blindboxgame/src/blindbox.cpp:166-226 | payment = paid + change with change below one price; as many NFTs as prices paid leave the box for the buyer, kind by kind; the traces' payments add up to the paid amount; the booth stays consistent |
| BoxLedger.BuyCommitsIff | contracts/blindboxgame/src/blindbox.cpp:166-226 | exactly when a payment to a consistent booth is accepted |
| BoxLedger.DepositKeepsConsistentIff | contracts/blindboxgame/src/blindbox.cpp:103-155 | after a deposit into consistent booths they are consistent (nft_num = sum of the box, nft_box_num = entries, all entries positive, fund_recd = price * (nft_num_sum - nft_num)) and the box holds everything sent, if and only if nft_num_sum plus the deposit is below 2^64; each kind then grows by exactly what was sent of it |
| BoxLedger.HugeDepositWraps | contracts/blindboxgame/src/blindbox.cpp:103-155 | an empty open booth takes a deposit of three times 2^63 - 1 NFTs, after which nft_num is 2^63 - 3 |
| BoxLedger.CloseRefundsAll | contracts/blindboxgame/src/blindbox.cpp:229-250 | closing refunds exactly what was left, no entry empty |
| BoxTerms.DepositTerms | contracts/blindboxgame/src/blindbox.cpp:103-155 | NFTs are taken into a box if and only if its enabled booth is the sender's and sells from that contract, every asset is positive and there is room for the kinds; all of them are then in the box and in both counters, and no other booth changes |
| BoxTerms.CloseTerms | contracts/blindboxgame/src/blindbox.cpp:229-250 | a booth is closed by its owner only, while enabled; the refund has all of every kind, and no other booth changes |
| BoxTerms.BoothOnlySells | contracts/blindboxgame/src/blindbox.cpp:64-281 | over every run in which the owner of a booth does nothing to it, owner, price, window and contracts stay, and what is gone from the box was bought, kind by kind, and paid for at the price |
| BoxLedger.RunKeepsConsistentIff | contracts/blindboxgame/src/blindbox.cpp:64-281 | from any consistent booths, a run keeps all booths consistent at every point and loses no deposit if and only if every committed deposit keeps nft_num_sum of its booth below 2^64 |
| BoxLedger.NoRowIsEverAdded | contracts/blindboxgame/include/wasm_db.hpp:73-85 | no action ever adds a booth or a box, because the one-argument `set` only updates |
| BoxLedger.NothingEverOpens | contracts/blindboxgame/src/blindbox.cpp:27-62 | so from the initial state every action aborts, forever |
| BoxContract.Blindbox.Draw | contracts/blindboxgame/src/blindbox.cpp:300-311 | the rehash loop returns the outcome of the first accepted word |
| BoxContract.Blindbox.FindEntry | contracts/blindboxgame/src/blindbox.cpp:261-267 | the running-total loop stops where the specification says, in 64-bit arithmetic |
| BoxContract.Blindbox.OnTransferToken | contracts/blindboxgame/src/blindbox.cpp:166-226 | the purchase with its two loops commits exactly the specified booth, box and receipt, or aborts unchanged |
| BoxContract.Blindbox.OnTransferNtoken | contracts/blindboxgame/src/blindbox.cpp:103-155 | the deposit loop adds every asset to the box and the sums to the counters, or aborts unchanged at the first bad asset |
| BoxContract.Blindbox.CloseBooth | contracts/blindboxgame/src/blindbox.cpp:229-250 | closing collects every entry for refund and erases booth and box |
| FundLedger.ServeConserves | contracts/poh.cisum/src/poh.cisum.cpp:337-399 | erasing while iterating skips no entry and pays none twice: left + paid = before for every token, all entries left have positive balance and reward, all payouts are positive |
| FundLedger.ServeOneFund | contracts/poh.cisum/src/poh.cisum.cpp:337-399 | an eligible fund pays its reward or what is left and is erased exactly when empty; any other fund is untouched |
| FundLedger.RunConserves | contracts/poh.cisum/src/poh.cisum.cpp:62-452 | over every run and for every extended symbol, deposits = available + paid to invitees + redeemed, and no stored record or entry is empty |
| FundLedger.MergeBalances | contracts/poh.cisum/src/poh.cisum.cpp:108-160 | a deposit adds exactly its amount to one token of one inviter, creating or merging the entry |
| FundLedger.RewardUnitsExactIff | contracts/poh.cisum/src/poh.cisum.cpp:86-95 | the reward in units is exact if and only if reward * 10^precision fits 64 bits |
| FundPayouts.FundPaysExactly | contracts/poh.cisum/src/poh.cisum.cpp:327-431 | a fund that neither its inviter nor the registrar changes or redeems has, after n invitees in its window and whatever else happened, redemptions by strangers before its end included, paid exactly min(n * R, A), and is there until it has paid A |
| FundPayouts.FundLastsForCeil | contracts/poh.cisum/src/poh.cisum.cpp:327-431 | such a fund lasts for exactly ceil(A / R) invitees, who receive A in all |
| FundPayouts.RecipientsAre | contracts/poh.cisum/src/poh.cisum.cpp:327-452 | funds flow only to the invitee of a registration and to the inviter of a redemption, whoever calls |
| FundTerms.RedeemTerms | contracts/poh.cisum/src/poh.cisum.cpp:409-450 | a record is redeemed if and only if it exists and the caller is its inviter, a registrar that is set, or every fund of it has end <= now; each fund's balance goes to the inviter, in order, and only this record is closed |
| FundTerms.RegistrarTerms | contracts/poh.cisum/src/poh.cisum.cpp:55-60 | the registrar, who may redeem any fund, changes by the contract's own `setregistrar` only |
| FundTerms.TopUpTerms | contracts/poh.cisum/src/poh.cisum.cpp:62-106 | a deposit without terms adds to a fund that is there, keeps all its terms, and is refused where there is none |
| FundTerms.DepositWithTerms | contracts/poh.cisum/src/poh.cisum.cpp:62-160 | a deposit with terms opens a fund on them, or adds to one and sets window, reward and, if named, title; when it is refused; no other fund changes |
| FundTerms.SetInfoTerms | contracts/poh.cisum/src/poh.cisum.cpp:203-248 | `setfundinfo` writes the title, start and end it is given and no amount; a new end must lie after the start |
| FundTerms.RegisterTerms | contracts/poh.cisum/src/poh.cisum.cpp:327-407 | an allowed registration commits, every fund of the inviter pays the invitee its reward or what is left within its window, and no other record changes |
| FundTerms.ReachableInOrder | contracts/poh.cisum/src/poh.cisum.cpp:337-399 | in every reachable state the funds of a record are in key order, so they pay in that order |
| FundContract.PohCisum.OnTransfer | contracts/poh.cisum/src/poh.cisum.cpp:62-106 | commits exactly the specified merge, or aborts unchanged; the scale loop works in 64 bits |
| FundContract.PohCisum.MergeFund | contracts/poh.cisum/src/poh.cisum.cpp:108-160 | a first deposit of a token needs full terms; a further one adds to the balance and replaces only the terms it names |
| FundContract.PohCisum.ServeAll | contracts/poh.cisum/src/poh.cisum.cpp:337-399 | the erase-while-iterating loop computes the specified balances and payouts |
| FundContract.PohCisum.RegisterReward | contracts/poh.cisum/src/poh.cisum.cpp:327-407 | a registration serves every fund of the inviter and erases the record exactly when it becomes empty |
| FundContract.PohCisum.SetFundInfo | contracts/poh.cisum/src/poh.cisum.cpp:203-248 | changes title, start or end of one fund only; a new end must lie after the start |
| FundContract.PohCisum.RedeemFund | contracts/poh.cisum/src/poh.cisum.cpp:409-450 | commits exactly the redemption that `RedeemTerms` describes, with a loop that exits early, or aborts unchanged |
| TokenLedger.ReachableIsBacked | contracts/cisum.token/src/cisum.token.cpp:73-377 | in every reachable state each supply is the sum of all balances, none negative, within its maximum |
| TokenLedger.TransferCommitsIff | contracts/cisum.token/src/cisum.token.cpp:152-209 | exactly when a transfer commits: the receiver's balance never overflows, the spending counter only past 2^62 - 1 |
| TokenLedger.TransferEffect | contracts/cisum.token/src/cisum.token.cpp:306-344 | a transfer moves the amount, raises the sender's spending only towards consuming accounts, and touches nothing else |
| TokenTerms.IssueTerms | contracts/cisum.token/src/cisum.token.cpp:96-122 | in every reachable state tokens are issued if and only if that is allowed, to the issuer or one of the two mining contracts, in the token's symbol and up to the maximum; the balance of the account named and the supply grow by exactly the amount, its spending is kept, every other row and stat is unchanged |
| TokenTerms.RetireTerms | contracts/cisum.token/src/cisum.token.cpp:124-145 | tokens are retired if and only if the issuer has them; its balance alone and the supply fall by exactly the amount |
| TokenTerms.TransferTerms | contracts/cisum.token/src/cisum.token.cpp:152-209 | when a transfer commits, and the whole state it leaves, with the badges it earns |
| TokenTerms.PackIff | contracts/cisum.token/src/cisum.token.cpp:409-444 | the badges of one pass are exactly one pack for each enabled rule whose threshold was passed, of the rule's own kind, one badge for each multiple passed |
| TokenTerms.AddRuleTerms | contracts/cisum.token/src/cisum.token.cpp:244-286 | a rule is added or changed if and only if that is allowed, its token exists, its badge is named and no other rule hands it out, and a rule to be changed exists; all other rules stay |
| TokenTerms.DelRuleTerms | contracts/cisum.token/src/cisum.token.cpp:288-298 | deleting removes one rule and leaves every other findable as before |
| TokenTerms.ReachableBadgesDiffer | contracts/cisum.token/src/cisum.token.cpp:244-298 | in every reachable state no two rules hand out the same badge |
| TokenBadges.ReachableBadgesTelescope | contracts/cisum.token/src/cisum.token.cpp:409-444 | from every reachable state, within one row's life and with the rule left alone, badges awarded over any run total floor(end / step) - floor(start / step), however the spending is split |
| TokenBadges.RunKeepsAscending | contracts/cisum.token/src/cisum.token.cpp:244-298 | rules stay in key order, without two of the same id, in every reachable state |
| TokenBadges.AwardOfRule | contracts/cisum.token/src/cisum.token.cpp:409-444 | one pass over the rules awards each rule's own crossings once |
| TokenBadges.CloseForgets | contracts/cisum.token/src/cisum.token.cpp:369-377 | closing and reopening a row resets its spending to zero |
| TokenContract.CisumToken.Issue | contracts/cisum.token/src/cisum.token.cpp:96-122 | commits exactly the issue that `IssueTerms` describes, or aborts unchanged |
| TokenContract.CisumToken.Retire | contracts/cisum.token/src/cisum.token.cpp:124-145 | takes the amount off the supply and the issuer's balance, or aborts unchanged |
| TokenContract.CisumToken.Transfer | contracts/cisum.token/src/cisum.token.cpp:152-209 | moves the amount, counts it as spent only towards consuming accounts, and returns the badges that earns, or aborts unchanged |
| TokenContract.CisumToken.TryAwardBadges | contracts/cisum.token/src/cisum.token.cpp:409-444 | the loop builds the specified packs |
| TokenContract.CisumToken.Close | contracts/cisum.token/src/cisum.token.cpp:369-377 | erases a row only when its balance is zero |
| SafeInt.AddAbortsIff | contracts/libs/base/include/base/safe.hpp:36-41 | at every width `+` aborts if and only if the sum is out of range, and its own comparisons never overflow (rule INT32-C of the SEI CERT C Coding Standard) |
| SafeInt.SubAbortsIff | contracts/libs/base/include/base/safe.hpp:42-47 | the same for `-` |
| SafeInt.MulAbortsIff | contracts/libs/base/include/base/safe.hpp:49-75 | the same for `*`, with truncating division in its four branches |
| SafeInt.DivAbortsIff | contracts/libs/base/include/base/safe.hpp:77-82 | `/` aborts if and only if there is no quotient in range |
| SafeInt.Safe64.MulAssign | contracts/libs/base/include/base/safe.hpp:106-110 | `*=` leaves the exact product, or aborts and leaves the value |
| SafeInt.Safe64.AddAssign | contracts/libs/base/include/base/safe.hpp:96-100 | `+=` leaves the exact sum, or aborts and leaves the value |
| AmountRoundTrip.UnitsRoundTrip | contracts/pos.cisum/include/utils.hpp:144-184 | every 64-bit amount but the least, printed at any precision up to 18 with a valid code, parses to itself with no overflow check firing |
| AmountRoundTrip.AssetRoundTripIff | contracts/pos.cisum/include/utils.hpp:144-184 | the parsed asset equals the printed one if and only if the magnitude is below 2^62 |
| AmountRoundTrip.LeastIsMisread | contracts/cisumsummary/src/cisumsummary.cpp:22-32 | the least 64-bit amount prints with two signs and is read back, without an error, as minus the last `precision` digits of 2^63 |
| AmountRoundTrip.UnitsOfLine | contracts/pos.cisum/include/utils.hpp:161-182 | sign, whole part and fraction are recombined exactly |
| AmountCode.FormatAmount | contracts/cisumsummary/src/cisumsummary.cpp:22-32 | the string edits print the specified text, which parses back to the amount |
| AmountCode.Precision | contracts/pos.cisum/include/utils.hpp:120-129 | the power loop on safe integers, signed-byte argument included |
| AmountCode.UnitsOf | contracts/pos.cisum/include/utils.hpp:161-182 | the arithmetic of the parser on safe integers updated in place |
| AmountCode.AssetFromString | contracts/pos.cisum/include/utils.hpp:144-184 | the parser computes the specified asset or aborts |
| SwapPrice.TwoFloors | contracts/cisumreserve/src/cisumreserve.cpp:51-58 | rounding the price down never costs the buyer and gives less than one price unit too much: floor(u * L / R) <= out and out * R * price < u * L * (price + 1) |
| SwapPrice.PriceIsFloorIff | contracts/cisumreserve/include/cisumreserve.hpp:75-95 | a quoted price is floor(10^8 * R / L) if and only if that fits 64 bits, and less otherwise |
| SwapPrice.ExchangeIsFloorIff | contracts/cisumreserve/src/cisumreserve.cpp:55-58 | the amount out is floor(u * 10^8 / price) if and only if that fits 64 bits, and less otherwise |
| SwapPrice.CutPrice | contracts/cisumreserve/include/cisumreserve.hpp:88-94 | pools whose true price is above 2^64 and is quoted as 90448384 |
| SwapPrice.FeeLeavesCeiling | contracts/cisumreserve/src/cisumreserve.cpp:60-65 | after the fee the ceiling of gross * (1 - bps / 10000) is left, between 0 and gross |
| SwapPrice.PurchaseIsFairIff | contracts/cisumreserve/src/cisumreserve.cpp:39-94 | for a committed purchase, price and amount are the true floors if and only if both quotients fit 64 bits; then both bounds of the conversion hold; the bounds of the fee hold always |
| SwapPrice.PurchaseTerms | contracts/cisumreserve/src/cisumreserve.cpp:39-94 | when a purchase commits, and the one order it stores: for the buyer, under the next number, for the amount less the fee; price and amount are floors exactly when these have 63 bits |
| SwapPrice.CisumReserve.OnUsdtTransfer | contracts/cisumreserve/src/cisumreserve.cpp:39-94 | commits exactly the specified order, or aborts unchanged |
| PopMining.ReachableIsCapped | contracts/pop.cisum/src/pop.cisum.cpp:91-263 | in every state reachable without `setmaxreward`, available + issued = maximum, and issued is exactly what mining handed out |
| PopMining.MineIssuesIff | contracts/pop.cisum/src/pop.cisum.cpp:131-186 | in a capped state the two caps of `mine` are one: it issues exactly the rewards that are positive and still available, and otherwise changes nothing |
| PopMining.AccumIsTenthsLessSettled | contracts/pop.cisum/src/pop.cisum.cpp:107-263 | over every run the accumulated reward is the tenths of the payments that mined less what was settled, and never negative |
| PopMining.MineTerms | contracts/pop.cisum/src/pop.cisum.cpp:107-246 | one `mine` in a capped state, in full: a tenth of the payment converted at the price of the pools is issued and counted if it is positive and available, and otherwise nothing changes |
| PopMining.SetMaxKeepsCapIff | contracts/pop.cisum/src/pop.cisum.cpp:265-278 | `setmaxreward` keeps available + issued = maximum if and only if it changes nothing or lowers the maximum before anything was issued |
| PopMining.NothingBeyondMax | contracts/pop.cisum/src/pop.cisum.cpp:156-183 | in any state no action issues beyond the maximum, even one lowered below what was issued |
| PopMining.PopCisum.Mine | contracts/pop.cisum/src/pop.cisum.cpp:107-246 | commits exactly the specified counters and reward, or aborts unchanged |
| PopMining.PopCisum.SetMaxReward | contracts/pop.cisum/src/pop.cisum.cpp:265-278 | sets the maximum and cuts what is available to it |
| AuthRelation.RunKeepsWellFormed | contracts/flon.auth/src/flon.auth.cpp:60-247 | in every reachable state and for every hash, each grant and permission row refers to an existing role, and no role, no (user, role) and no (role, hash prefix) key occurs twice |
| AuthRelation.StepKeepsWellFormed | contracts/flon.auth/src/flon.auth.cpp:60-247 | every action keeps that, from any state in which it holds |
| AuthRelation.RefinesIffInjective | contracts/flon.auth/src/flon.auth.cpp:60-247 | over all runs that use a vocabulary of permissions, the tables stand for the plain relation the actions describe if and only if no two of its words share a hash prefix |
| AuthRelation.CollisionConfuses | contracts/flon.auth/src/flon.auth.cpp:187-247 | of two permissions with one prefix, a role that has the first is refused the second, and removing the second takes away the first |
| AuthRelation.RunRefines | contracts/flon.auth/src/flon.auth.cpp:60-247 | with distinct prefixes, the same actions commit in tables and relation, and they agree after every run |
| AuthRelation.StepRefines | contracts/flon.auth/src/flon.auth.cpp:60-247 | with distinct prefixes, one action aborts in both or commits in both with the same outcome |
| AuthRelation.CheckRoleIff | contracts/flon.auth/src/flon.auth.cpp:151-185 | `checkrole` passes if and only if some role of the user stores a permission with the same eight-byte prefix |
| AuthRelation.CheckRoleIsRelation | contracts/flon.auth/src/flon.auth.cpp:151-185 | with prefixes distinct, if and only if the user has a role with that very permission |
| AuthRelation.PackInjective | contracts/flon.auth/src/flon.auth.cpp:22-28 | packed 128-bit keys are equal only for equal pairs |
| AuthContract.FlonAuth.DelRole | contracts/flon.auth/src/flon.auth.cpp:85-109 | commits exactly the specified tables, with the erase loop over the role's permissions, or aborts unchanged |
| AuthContract.FlonAuth.AddRolePerm | contracts/flon.auth/src/flon.auth.cpp:187-223 | the loop adds all permissions or, when any one is empty or taken, none |
| AuthContract.FlonAuth.DelRolePerm | contracts/flon.auth/src/flon.auth.cpp:225-247 | the loop removes, for each name in turn, the permission stored under its key |
| AuthContract.FlonAuth.GrantRole | contracts/flon.auth/src/flon.auth.cpp:111-131 | grants a role that exists, once, and keeps the tables in order for every hash |
| AuthContract.FlonAuth.RevokeRole | contracts/flon.auth/src/flon.auth.cpp:133-149 | erases the grant, or aborts when there is none, and keeps the tables in order for every hash |
| AuthContract.FlonAuth.CheckRole | contracts/flon.auth/src/flon.auth.cpp:151-185 | the loop over the user's roles decides as specified |

## Left out

- Memo texts are parsed forms here (`Memo`, `Terms`, plan ids), except for amounts; log and notification actions are omitted.
- Signatures, whitelists, `is_account` checks and remote permission checks are one boolean per step.
- RAM payers, serialization, timestamps that nothing reads, and descriptive fields (titles, URIs, addresses).
- 64-bit row counters that only grow by one per action are unbounded here.
- SHA-256, transaction and block hashes are an arbitrary function or an arbitrary draw; `_rand` is given the successive hash words and aborts if all are rejected, since its loop has no provable end.
- BoxLedger.RunKeepsConsistentIff: starts from any consistent booths, because no action creates one; `delboothbox` and `fixboothbox`, which edit boxes without the counters, are not part of this model.
- BoxTerms.DepositTerms: is stated while nft_num_sum and the deposit fit 64 bits; `DepositKeepsConsistentIff` says what happens beyond.
- PosDeposit.DepositTerms: takes symbols of at most 18 decimals, beyond which the helper that computes the unit aborts.
- PosTerms.EarlyWithdrawCosts: is stated for terms that end on the 32-bit clock and a maximum fine that is an amount; beyond, fine and rate are cut (`PenaltyIsCut`, `WaitingCostsHalf`).
- PosRedeem.LaterRedeemsMore: needs a rate below 2^63 whose product with ten times the term fits 128 bits; beyond, the rate itself wraps (`FineRateIsRoundedIff`).
- PosWaiting.WaitingIsFreeIff: beyond 49.99% per second, or on a term that ends on a later lap of the clock, only one direction is stated (`LaterRedeemsMore`); the other fails for steeper rates, as `SteepPlansPayNobodyEarly` shows.
- ShowStock.SoldOverflowIff: is stated while stock + sold and total - (lent - returned) lie in 0 to 2^32 - 1, which the congruence of `RunKeepsStock` needs to become an equation.
- grab.cisum: `cfgticket` is assumed unused, and the price paid stays with the contract; `deltoken`, which only makes further grabs abort, and oracles are omitted.
- GrabContract.GrabCisum covers taking part, stock and clean-up; the set-up actions (`addrushsale`, `setrushsale`, `addupgrade`, `setupgrade`, `addtoken`) are functions in `GrabModel` only, and are steps of every run.
- ShowContract.ShowCisum covers the stock counters; the set-up actions are functions in `ShowModel` only; selling against payment (`buyticket`) ends in the same `issue`.
- cisum.token: a pack of badges does not name its receiver, who is always the sender of the transfer.
- TokenContract.CisumToken: `open`, rules and settings are functions in `TokenModel` only, and are steps of every run.
- show.cisum's own retirements of NFTs in ticket.cvnft bypass its stock table and are not steps of the model.
- poh.cisum: the rewards in SING and CISUM that registration issues besides the funds are part of `allowed`.
- pop.cisum: its badges follow the code of cisum.token's and are not modelled again; executors are part of `allowed`; `init` and `settle` are functions only, and are steps of every run.
- artist.cisum, cisum.vault, minyin.vault, cvbadgestore, cisumshowman and poe.cisum only set fields, route memos or wrap inline calls.
- sing.token: only its rule that a transfer must be positive and covered by the balance is used; its administrative row deletions are not part of this model.
- safe<T>: `%`, unary minus, comparisons and the increment operators; only signed widths are covered.
