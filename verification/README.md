# Table ordering: verified model

A Dafny model of a QR table-ordering server: guests scan a table's code, several
phones share one visit, orders go to a desk and to a kitchen printer, staff correct
orders and settle bills at the till. The hard part is a set of state machines over
database rows that phones, staff, printer agents and timers drive at the same time.
The project models those machines and proves what they promise.

There are two kinds of model.

* **Code.** Where the source updates rows, maps or loop variables in place, there is a
  class or a method with the same fields, loops and branches, proved against a
  specification function (`PosOutbox.Outbox`, `OrderEdit.OrderRecord`,
  `VenueHandlers.VenueDb`, `RateLimit.Limiter`, `Billing.BuildBill`, ...). What such a
  function means is stated apart from it, in the rows' own fields and constants.
* **Runs.** A state, an event type, `Apply` for one step and `Exec` for a list of
  events. A theorem over `Exec` speaks of every interleaving. An event that is not
  enabled leaves the state alone, so every list of events is a run. Where the source
  reads and writes in separate statements and the difference matters, each statement is
  an event of its own.

| module | what it covers | steps |
|---|---|---|
| `PosOutbox`, `BridgeProtocol` | delivery rows, claims with a lease, acks, retries, the sweep | statements |
| `KitchenPaper` | an order and the tickets printed for it | enqueues and corrections split into read and write |
| `Orders`, `OrderEdit`, `EditRace` | line snapshots, desk corrections, the audit trail | one edit; read and commit |
| `Billing` | the itemised bill, its per-phone split, the fast totals | loops |
| `VenueFloor`, `VenueHandlers` | visits, sessions, orders, settlement, abandonment | handlers; the status change split into check and write |
| `SettleRace`, `SettleOutcomes` | rival settlements of one visit, and the handlers that write visits and statuses by id | statements |
| `SettleRefinement` | `SettleRace`'s statements, run with nobody in between, are `VenueFloor`'s handlers | both |
| `OrderSubmission` | idempotency keys and ticket numbers | statements |
| `VisitRace` | phones scanning an idle table at once | statements |
| `RateLimit`, `SessionTouch`, `MenuCache` | limiter, throttled touch, cached promise | calls |
| `Pricing` | the item sheet and the server's pricing | taps |
| `CsvExport` | the order-log export and a reader for it | whole file |

Times are integers in milliseconds, money is an integer number of kuruş. Clocks, random
ids and the outcome of a print are parameters. A table is a sequence whose index is both
the row's id and its place in creation order.

## What turned out not to hold as stated

Each of these has a lemma giving the exact condition under which the code does what is
wanted, and one with a run, or a family of runs, in which it does not.

* A correction that names one line twice can store a wrong total: the total reads the
  first entry, the writes use every entry, and the request schema allows it. With no
  negative price the stored total is right exactly when no line that costs anything has
  a first entry repeating its quantity and a later one altering it; for any prices,
  exactly when the drift of such lines is zero. `OrderEdit.TotalRightExactly`,
  `OrderEdit.ShadowedExactly`, `OrderEdit.ShadowedTotalWitness`.
* Two corrections of *different* lines, both read before either commits, both succeed and
  leave a total neither of them saw, although the comment at `src/lib/orderEdit.ts:17-20`
  says the second to land is refused. The stored total is off by exactly what landed
  since the read; with no negative price it is right exactly when every write since then
  was to a line that costs nothing. `EditRace.StoredTotalExactly`,
  `EditRace.StoredTotalByWrites`, `EditRace.StaleTotalWitness`.
* The kitchen's newest ticket can stay wrong with no amendment on its way. A correction
  may slip between an enqueue's read and its write; its dialog may have been opened
  before the first ticket existed and commit after it; two amendments may be written the
  other way round; or an amendment may fail. Those are the only ways.
  `KitchenPaper.PaperFailsExactly`, `KitchenPaper.PaperAgrees`,
  `KitchenPaper.OvertakenEnqueueWitness`, `KitchenPaper.EarlyDialogWitness`,
  `KitchenPaper.SwappedAmendmentsWitness`.
* A table can be settled twice, and its orders paid twice: asking for the bill and
  dismissing that check the visit and then write it by id, so one that was checked before
  a settlement and written after it opens the visit again; the abandoned-visit sweep can
  overwrite a settlement's record in the same way. A settled visit can never be settled
  again exactly when no such request is still under way, and keeps its record exactly
  when no request of any of the three kinds is. `SettleRace.SettledForGoodExactly`,
  `SettleRace.StandsExactly`, `SettleRace.PaidTwiceWitness`.
* An unforced settlement counts food in the kitchen and builds the bill in two statements.
  An order placed in between is billed and marked paid while still in the kitchen, and so
  is an order counted as served that a stale status change puts back: the desk's PATCH
  checks the order's status and then writes it by id. What the count said stays true
  until the bill exactly when no such change was past its check.
  `SettleOutcomes.UnforcedBillExactly`, `SettleOutcomes.CountHoldsExactly`,
  `SettleOutcomes.LateOrderWitness`, `SettleOutcomes.StaleMoveWitness`.
* A settlement's snapshot can stop adding up, an unforced one's too. It adds up for good
  exactly when the desk's row was right and every order on the bill whose total a
  correction could change is out of the kitchen with no status change past its check
  that will put it back. `VenueFloor.SettlementFreezesExactly`, `VenueFloor.Spoils`.
* A withdrawal and the desk's acceptance can both win, although the comment at
  `src/app/api/orders/[id]/cancel/route.ts:34-35` says they must not: the withdrawal is
  conditional, the acceptance is not. The withdrawal stands exactly when no status change
  of the order was past its check. `VenueFloor.WithdrawalStandsExactly`,
  `VenueFloor.FinishedExactly`, `VenueFloor.BothWinWitness`.
* An ack reads the row and later writes it by id. A report of failure written after an
  admin's retry can leave a failed row with attempts to spare, and one written after a
  report of success takes a printed ticket back to pending. Given up means exhausted, and
  printed stays printed, exactly when no such report is still to be written.
  `BridgeProtocol.FailedMeansExhausted`, `BridgeProtocol.SentStandsExactly`.
* The limiter lets the first hit of a window through whatever the limit, so its bounds
  read `Max(1, limit)`. `RateLimit.FirstHitWitness`.
* A session is still accepted at the very instant its cap falls, when the abandoned-visit
  sweep no longer counts it. `VenueFloor.SessionsAndVisits` confines the overlap to that
  instant, and `VenueFloor.CapInstantWitness` reaches it.

A menu load that fails late drops whatever promise is then cached, even a newer one; that
costs a reload, never a stale answer (`MenuCache.CallsAreFresh`).

## Model

| member | source | states |
|---|---|---|
| PosOutbox.Oldest | src/app/api/bridge/pending/route.ts:33-38 | An ordered, limited query: at most `take` matching rows, in creation order; a matching row is left out only if the batch is full of older ones |
| PosOutbox.CandidatesAreOldestClaimable | src/app/api/bridge/pending/route.ts:22-38 | A poll may take the bridge rows of its venue with attempts left that are pending, or claimed with no stamp or one from before the cutoff; it chooses the oldest of them, and a short batch means nothing is left waiting |
| PosOutbox.HeldByExact | src/app/api/bridge/pending/route.ts:54-58 | Fetching by claim id returns exactly the rows bearing it |
| PosOutbox.Outbox.EnqueuePosDelivery | src/lib/pos/outbox.ts:30-41 | Appends one row with the rendered payload: a bridge row pending with no attempt used, a push row sent or counted and kept with its error |
| PosOutbox.Outbox.AttemptDelivery | src/lib/pos/outbox.ts:78-102 | Touches only a pending row; a push either sends or counts and keeps the error, and the fifth refusal fails it |
| PosOutbox.Outbox.Claim | src/app/api/bridge/pending/route.ts:48-52 | The conditional bulk claim rewrites exactly those chosen rows that are still claimable |
| PosOutbox.Outbox.ServePending | src/app/api/bridge/pending/route.ts:17-58 | With nobody in between, the agent is handed exactly the oldest claimable rows, each now claimed under its id and stamp with one more attempt used; no other row changes |
| PosOutbox.Outbox.Ack | src/app/api/bridge/ack/route.ts:11-35 | With nobody between its check and its write, only a row of the venue still claimed is settled: a report of success makes it sent, one of failure makes it failed if five attempts are used and pending otherwise, with the error cut to 500 characters; the claim is cleared, attempts are kept |
| PosOutbox.Outbox.Retry | src/app/api/admin/pos/[id]/retry/route.ts:12-18 | Makes exactly the named row of the own venue pending, unclaimed, with no attempt used and no error |
| PosOutbox.Outbox.UpdateMany | src/lib/pos/outbox.ts:125-139 | A bulk update changes exactly the matching rows and counts them |
| PosOutbox.Outbox.Sweep | src/lib/pos/outbox.ts:122-153 | Three bulk updates, with the error texts they leave, and then one attempt on each of the oldest retryable push rows; counts exactly the rows whose lease was over, those found pending with every attempt used, and those retried |
| PosOutbox.AttemptsKeepBridgeRows | src/lib/pos/outbox.ts:141-150 | The sweep's retry loop never touches a bridge row, nor any row it did not select |
| PosOutbox.SweepRowByRow | src/lib/pos/outbox.ts:122-139 | The three bulk updates and the retries together change a bridge row as if it were alone |
| PosOutbox.SweepRowMeans | src/lib/pos/outbox.ts:122-139 | Field by field: a bridge row whose lease is over becomes pending, unclaimed, attempts kept, or failed if they are used up; a pending row with none left fails; nothing else changes, so a row is sent after the sweep if and only if it was before |
| PosOutbox.ReleasedIsClaimable | src/lib/pos/outbox.ts:125-134 | A row released with attempts left is among the oldest claimable rows of its venue's next poll, unless a full batch of older ones is |
| PosOutbox.SweepRetriesPush | src/lib/pos/outbox.ts:141-150 | A pending push row with attempts left is attempted once, unless a full batch of older ones is: sent, or counted and failed with the fifth |
| PosOutbox.SweepKeepsTickets | src/lib/pos/outbox.ts:122-150 | No row changes its venue, order, adapter or payload |
| PosOutbox.SweepStrandsNothing | src/lib/pos/outbox.ts:122-153 | Right after a sweep, from any table at all, every bridge row is sent, failed, claimable, or under a lease still running |
| PosOutbox.SweepTwiceIsOnce | src/lib/pos/outbox.ts:122-153 | A second sweep at the same instant changes no bridge row |
| PosOutbox.SweepFailsOnlyExhausted | src/lib/pos/outbox.ts:125-139 | The sweep fails a bridge row if and only if its attempts are used up and no lease on it is running |
| BridgeProtocol.ReachableInv | src/app/api/bridge/pending/route.ts:17-58 | In every interleaving: attempts stay within the ceiling, a row is claimed exactly when it carries a claim id and a stamp, the stamp is not in the future, and the id is that of a poll which chose it |
| BridgeProtocol.FailedMeansExhausted | src/app/api/bridge/ack/route.ts:11-35 | With ack's check and write apart: in every continuation without a retry of the row, failed means every attempt was used, if and only if it does now and no report of failure that read the row exhausted, before attempts were given back, is still to be written |
| BridgeProtocol.SentStandsExactly | src/app/api/bridge/ack/route.ts:19-35 | A printed row stays sent until an admin retries it if and only if no report of failure on it is past its check |
| BridgeProtocol.WhoMovesARow | src/lib/pos/outbox.ts:5-12 | In any reachable state, what each step makes of a bridge row, field by field: sent exactly when a report that it was printed is written, claimed when a poll's claim lands, failed or pending by a report of failure or the sweep, fresh by an admin of its venue; no other step changes it |
| BridgeProtocol.PrintedMeansReported | src/app/api/bridge/ack/route.ts:11-28 | In every run from an empty outbox, a bridge ticket that is sent was reported printed by an agent of its own venue while it was claimed |
| BridgeProtocol.PrintedIsPrintedOnce | src/app/api/bridge/ack/route.ts:25-28 | Once such a report is written and no report of failure is pending, the ticket stays sent and no poll takes it again until an admin retries it |
| BridgeProtocol.ClaimedCanBeReported | src/app/api/bridge/ack/route.ts:19-28 | A claimed ticket can always be reported printed, and is then sent |
| BridgeProtocol.TicketAsEnqueued | src/lib/pos/outbox.ts:30-37 | In every run a row stays the ticket some enqueue asked for: venue, order, adapter and payload |
| BridgeProtocol.HandedFacts | src/app/api/bridge/pending/route.ts:33-67 | What an agent receives are rows of its venue that its poll chose, at most a batch, whatever happens to them later |
| BridgeProtocol.AnswerHandsOverClaim | src/app/api/bridge/pending/route.ts:54-67 | At the moment of the answer an agent is handed exactly the rows under its own claim |
| BridgeProtocol.LeaseSafety | src/app/api/bridge/pending/route.ts:17-52 | Two claims of one row with no ack of it written and no retry of it between them: the second lands strictly after the first's lease, however early its cutoff was read |
| BridgeProtocol.LeaseEnds | src/app/api/bridge/pending/route.ts:17-31 | A poll beginning now can take a bridge row if and only if it has attempts left and no lease on it is running |
| BridgeProtocol.BoundedRedelivery | src/lib/pos/outbox.ts:5-12 | Between admin retries a row is handed out at most MAX_ATTEMPTS times, and a bridge row's counter is exactly the number of hand-outs |
| BridgeProtocol.ApplyLowersMeasure | src/lib/pos/outbox.ts:122-139 | Admin retries apart, a step that moves a row lowers a measure on attempts left and status if and only if the row was not finished, and only an ack written late moves one that is, by at most one |
| BridgeProtocol.RowSettlesDown | src/lib/pos/outbox.ts:114-121 | However long agents poll, before an admin retries it a row moves at most 16 times, and twice more for each ack written after it was finished |
| Orders.StatusGraph | src/app/api/desk/orders/[id]/route.ts:9-14 | By the table: which statuses lead to each other one; orders in flight are exactly those that can move; moves go forward only; the desk never cancels |
| Orders.ItemisedAdds | src/lib/visit.ts:111-117 | A line of q portions at price p adds p times q to its order's price, unless it is voided |
| OrderEdit.CollectEdits | src/lib/orderEdit.ts:71-86 | The loop over the request refuses it if an entry names no live line or raises a quantity, and otherwise collects exactly the altering entries |
| OrderEdit.Reprice | src/lib/orderEdit.ts:92-102 | The passes over the lines find whether anything remains, and the total at the requested quantities |
| OrderEdit.PlanFromRead | src/lib/orderEdit.ts:62-102 | The read phase's loops compute the specified plan: first refusal in the source's order, or the edits, the changes and the new total |
| OrderEdit.CommitExact | src/lib/orderEdit.ts:111-119 | Committing against the order it was planned on succeeds if and only if no line is altered twice, and then rewrites exactly the altered lines |
| OrderEdit.ZeroMeansVoid | src/lib/orderEdit.ts:111-119 | After an edit that lands a line taken to zero is voided then and there, every other line keeps its void mark, price and text, and a voided line is left alone |
| OrderEdit.EditDoesWhatItSays | src/lib/orderEdit.ts:71-119 | When no line is named twice, each line named ends with the quantity asked for and every other line is as it was |
| OrderEdit.RefusalsMean | src/lib/orderEdit.ts:62-97 | Which request is refused and why, in order: the order has left the kitchen; an entry names no line that is not voided or asks for more than there is; every entry repeats a quantity; nothing would be left |
| OrderEdit.EditKeepsTotal | src/lib/orderEdit.ts:98-136 | A request naming each line at most once never conflicts with itself, leaves something on the order, and stores the itemised price of what it leaves |
| OrderEdit.TotalOffByDrift | src/lib/orderEdit.ts:99-102 | For any request, repeated entries included, the stored total exceeds the itemised price by exactly the drift of the shadowed lines |
| OrderEdit.ShadowedExactly | src/lib/orderEdit.ts:77-102 | The entry counted and the entry written differ for a line if and only if its first entry repeats its quantity and a later one alters it |
| OrderEdit.TotalRightExactly | src/lib/orderEdit.ts:77-102 | Whatever the request repeats, the stored total is right if and only if the drift is zero, and with no negative price if and only if no live line that costs anything is shadowed |
| OrderEdit.ShadowedTotalWitness | src/lib/orderEdit.ts:77-102 | For any line and any fewer portions: a two-entry request that commits and leaves the order charging for all of them |
| OrderEdit.ShedLands | src/lib/orderEdit.ts:89-102 | If a portion that costs something can go without emptying the order, taking it off lands and lowers the total by its price |
| OrderEdit.FixedStays | src/lib/orderEdit.ts:77-126 | An order that is not spoilable (no costly portion can go, and its total is right or nothing is left to correct) keeps its total through every correction, even one naming a line twice, and stays that way |
| OrderEdit.SpoilableExactly | src/lib/orderEdit.ts:57-126 | While an order is in the kitchen, some correction changes its stored total if and only if it is spoilable |
| OrderEdit.OrderRecord.UpdateMany | src/lib/orderEdit.ts:114-118 | One conditional line write: the line with that id and quantity that is not voided gets the new quantity, and is voided if that is zero; the count says whether there was one |
| OrderEdit.OrderRecord.Commit | src/lib/orderEdit.ts:110-136 | All line writes, the total and the audit row land together, or a conflict leaves everything as it was |
| OrderEdit.OrderRecord.Edit | src/lib/orderEdit.ts:57-150 | The whole edit: each refusal, the committed order with lines taken to zero voided, the audit row and the after-print flag; any error changes nothing |
| EditRace.AuditChain | src/lib/orderEdit.ts:75-119 | However dialogs interleave, each line's writes form an unbroken strictly decreasing chain from the placed quantity to the current one, and a voided line has quantity zero |
| EditRace.AuditRowsAreWrites | src/lib/orderEdit.ts:127-135 | In every run the audit rows list exactly the committed line writes, in order |
| EditRace.CommitRecords | src/lib/orderEdit.ts:119-135 | A correction that lands adds its planned writes, its total and one audit row under the member of staff who sent it; any other step adds neither |
| EditRace.VoidedForever | src/lib/orderEdit.ts:114-117 | A voided line is never changed or written again |
| EditRace.VoidedExactly | src/lib/orderEdit.ts:111-119 | In every run of corrections to an order placed with live lines, a line is voided if and only if no portion of it is left |
| EditRace.CommitChains | src/lib/orderEdit.ts:111-119 | Each committed write starts from the quantity the line then had, and voided lines are skipped |
| EditRace.LandsAltersOnce | src/lib/orderEdit.ts:111-119 | A plan with two writes from the same quantity of one line can never land, whatever the order has become |
| EditRace.CommitTotalOff | src/lib/orderEdit.ts:57-126 | A plan that lands on a newer order stores a total off by its own drift and by what the order lost since the read |
| EditRace.StoredTotalExactly | src/lib/orderEdit.ts:57-126 | In every run, for any prices and requests, a committing dialog's total is off by its drift less what other corrections took off since it read, so it is right if and only if the two cancel |
| EditRace.StoredTotalByWrites | src/lib/orderEdit.ts:57-126 | With no negative price and no line named twice, it is right if and only if every write since the read was to a line that costs nothing |
| EditRace.StaleTotalWitness | src/lib/orderEdit.ts:57-126 | For any two lines of two portions or more: two interleaved edits that both commit and leave the order charging for a portion it no longer has |
| Billing.PhonesOf | src/lib/visit.ts:130-136 | The phones of a bill: each once, exactly those that ordered |
| Billing.BillShows | src/lib/visit.ts:110-126 | Order by order, every line that is not voided is on the bill at its place, with its own name, quantity, price, amount, note and options |
| Billing.OrderShown | src/lib/visit.ts:110-126 | And each order adds as many lines as it has that are not voided |
| Billing.BillAdds | src/lib/visit.ts:146 | What the bill comes to grows by each order's itemised price and by each line's amount |
| Billing.LabelsStay | src/lib/visit.ts:130-136 | Phones are numbered in the order they first ordered: later orders never change a number |
| Billing.PhonePaysItsOwn | src/lib/visit.ts:127-128 | A phone owes the itemised price of its own orders |
| Billing.AllLinesTotal | src/lib/visit.ts:111-146 | The sum over the printed lines is the sum of the orders' itemised prices |
| Billing.PhonesSplitTheBill | src/lib/visit.ts:127-136 | The phones' amounts add up to the whole bill |
| Billing.StoredIsItemised | src/app/api/desk/bills/route.ts:27-42 | Wherever each stored total is its order's itemised price, the fast sum is the itemised sum |
| Billing.FastRowIsItemised | src/app/api/desk/bills/route.ts:42-44 | The desk row's total, order count and phone count are those of the itemised bill |
| Billing.PushLines | src/lib/visit.ts:114-126 | One order's live lines are pushed in order and added up |
| Billing.Collect | src/lib/visit.ts:110-128 | The nested loops yield all live lines, the phones in order of first appearance, and each phone's amount |
| Billing.ReduceLines | src/lib/visit.ts:146 | The reduction over bill lines is their sum |
| Billing.BuildBill | src/lib/visit.ts:93-151 | The itemised bill: lines, total, phones numbered by first appearance whose amounts add up to the total, order count and order ids |
| VenueFloor.ReachableInv | src/lib/visit.ts:65-282 | In every run of scans, orders, status changes, cancels, edits, bill requests, settlements, sweeps and revocations: orders sit with their session's table and visit, live sessions have open visits, paid orders belong to settled visits, no table has two open visits, and no pending status change cancels |
| VenueFloor.AllTotalsStored | src/lib/orderEdit.ts:98-126 | As long as no correction has named a line twice, every stored total is its order's itemised price |
| VenueFloor.BillCovers | src/lib/visit.ts:97-108 | The bill covers exactly the visit's orders that are received, accepted, preparing, ready or served, oldest first, each with its id |
| VenueFloor.OnTheBillUntilVoid | src/lib/visit.ts:99-100 | In every later state of every run an order is on the bill of the visit it was placed at, and of no other, exactly while it is neither rejected nor withdrawn |
| VenueFloor.SettlingMeans | src/lib/visit.ts:212-242 | Settling pays exactly the orders owed, closes the visit with what the bill came to and the till's input, revokes exactly the party's sessions, and changes nothing else |
| VenueFloor.DeskListsExactly | src/app/api/desk/bills/route.ts:27-47 | The desk lists an open visit exactly when its bill was asked for or it has an order to pay for |
| VenueFloor.DeskLeavesNothingOut | src/app/api/desk/bills/route.ts:33-47 | The rows the desk list filters out owe nothing: those it shows come to the floor's running total |
| VenueFloor.FastBillIsItemised | src/app/api/desk/bills/route.ts:27-47 | In every state reached without a correction that names a line twice, the desk row equals the itemised bill, whose phones' shares add up to it, and both the desk list and the floor's running total come to the sum of the itemised bills |
| VenueFloor.RunningAgrees | src/lib/reporting.ts:124-138 | The running total over open visits is the sum of their itemised bills |
| VenueFloor.SessionsAndVisits | src/lib/tableSession.ts:34-60 | In every reachable state a session is of its visit's table, and no live one belongs to a closed visit, the cap's own instant aside |
| VenueFloor.OrdersFollowSessions | src/app/api/orders/route.ts:135-143 | An order's table and visit are its session's |
| VenueFloor.OneOpenVisit | src/lib/visit.ts:65-90 | A table has at most one open visit |
| VenueFloor.CapInstantWitness | src/lib/visit.ts:255-266 | A run in which a visit is swept as abandoned at the instant one of its sessions, still accepted, reaches its cap |
| VenueFloor.DisplacementCounts | src/lib/tableSession.ts:48-58 | After displacement the live sessions number the smaller of what there was and the cap |
| VenueFloor.DisplacementKeepsNewest | src/lib/tableSession.ts:48-58 | A session is displaced if and only if the cap is filled by newer live ones |
| VenueFloor.DisplacedOnlyRevokes | src/lib/tableSession.ts:53-58 | Displacing revokes sessions of the table, then and there, and does nothing else to them |
| VenueFloor.ActiveFromIsCount | src/lib/tableSession.ts:48-52 | The live sessions counted are those of the table, not revoked, whose cap is still ahead |
| VenueFloor.ScanMints | src/lib/tableSession.ts:36-46 | A scan writes one session of the table, good for two hours, at the table's open visit, and that visit if there was none |
| VenueFloor.RevocationsMean | src/app/api/admin/tables/[id]/route.ts:16-22 | An admin's revocation of a table revokes its sessions that are not revoked already, leaves none live and touches no other; one of a session, that one |
| VenueFloor.ScanJoinsOpenVisit | src/lib/tableSession.ts:36-46 | The minted session belongs to the table's open visit |
| VenueFloor.ScanKeepsNewest | src/lib/tableSession.ts:34-60 | After a scan at most six sessions of the table are live, the new one among them at its open visit, and an older live one lost its place exactly when six newer ones are live |
| VenueFloor.NeverMoreThanTheCap | src/lib/tableSession.ts:48-58 | In every reachable state a table has at most six live sessions, all of them at its one open visit |
| VenueFloor.FinishedExactly | src/app/api/desk/orders/[id]/route.ts:25-37 | A served, rejected or withdrawn order stays so in every continuation if and only if no status change past its check is still to write something else |
| VenueFloor.WithdrawalStandsExactly | src/app/api/orders/[id]/cancel/route.ts:34-40 | A withdrawal stands in every continuation if and only if no status change of the order was past its check when it was made |
| VenueFloor.BothWinWitness | src/app/api/orders/[id]/cancel/route.ts:34-40 | A run in which the withdrawal succeeds and the order is then accepted |
| VenueFloor.SettleFreezes | src/lib/visit.ts:205-236 | If the desk's row is right and every billed order is held (no correction can change its total, now or later), settling pays exactly the billed orders, which add up to the snapshot, and they stay held |
| VenueFloor.SettlementFreezesTheMoney | src/lib/visit.ts:205-236 | After an unforced settlement with a right desk row and no status change past its check that puts a billed order back into the kitchen, in every later state of every run the snapshot is the bill it was settled at and the stored totals of the paid orders add up to it |
| VenueFloor.SettlementFreezesExactly | src/lib/visit.ts:193-243 | A settlement, forced or not, adds up in every later state of every run if and only if the desk's row was right and every spoilable order on the bill was out of the kitchen with no status change past its check that puts it back |
| VenueFloor.SettlementFreesTheTable | src/lib/visit.ts:215-243 | In every later state of every run the record is what settlement wrote and none of the party's phones is live, and the table's next scan starts a visit of its own |
| VenueFloor.SweepIsSteps | src/lib/visit.ts:254-282 | Closing listed visits one after another is the same as deciding them all at once |
| VenueFloor.SweepClosesExactlyAbandoned | src/lib/visit.ts:254-282 | The sweep closes an open visit as abandoned, with what its bill comes to, if and only if it was opened more than three hours ago, nothing was ordered since and none of its phones is live; it touches no order and no session |
| VenueHandlers.VenueDb.OpenOrJoinVisit | src/lib/visit.ts:65-90 | Answers with the newest open visit of the table, opening a fresh one only if there is none |
| VenueHandlers.VenueDb.DisplaceOldest | src/lib/tableSession.ts:48-58 | The in-place pass revokes exactly the live sessions beyond the cap, oldest first |
| VenueHandlers.VenueDb.MintSession | src/lib/tableSession.ts:34-60 | A scan as one step of the floor: the new session is of the table, at an open visit of it, good for two hours |
| VenueHandlers.VenueDb.PlaceOrder | src/app/api/orders/route.ts:135-143 | Inserts one received order at its session's table and visit with the priced total |
| VenueHandlers.VenueDb.CheckStatus | src/app/api/desk/orders/[id]/route.ts:25-32 | The check alone, in the source's order of refusals: unknown order, transition not in the table, no reason for a rejection |
| VenueHandlers.VenueDb.WriteStatus | src/app/api/desk/orders/[id]/route.ts:34-37 | The write alone, as a step of the floor: by id, on whatever the order has become |
| VenueHandlers.VenueDb.PatchStatus | src/app/api/desk/orders/[id]/route.ts:25-37 | With nobody in between, moves the order if and only if the table allows it and a rejection has a reason, storing the reason's first 200 characters and clearing it otherwise |
| VenueHandlers.VenueDb.CancelOrder | src/app/api/orders/[id]/cancel/route.ts:22-42 | Withdraws the order if and only if it is the session's own and still received |
| VenueHandlers.VenueDb.RequestTheBill | src/lib/visit.ts:154-165 | Succeeds for any open visit and stamps the first request; asking again changes nothing |
| VenueHandlers.VenueDb.ClearRequest | src/lib/visit.ts:168-177 | Reopens exactly a visit whose bill was asked for, and forgets when |
| VenueHandlers.VenueDb.BilledFor | src/lib/visit.ts:94-108 | The visit's orders that are received, accepted, preparing, ready or served, oldest first, with their ids |
| VenueHandlers.VenueDb.CountInFlight | src/lib/visit.ts:205-210 | The count is positive exactly when an order of the visit is received, accepted, preparing or ready |
| VenueHandlers.VenueDb.SettleVisit | src/lib/visit.ts:193-248 | Each refusal in order, changing nothing; otherwise the visit is closed with the bill's total and the till's input, exactly the orders owed are paid, the party's sessions are revoked, and nothing else changes |
| VenueHandlers.VenueDb.MarkOrdersPaid | src/lib/visit.ts:233-236 | Marks exactly the orders whose ids it is given |
| VenueHandlers.VenueDb.EditItems | src/app/api/desk/orders/[id]/items/route.ts:24-30 | A correction as one step of the floor, and when it succeeds |
| VenueHandlers.VenueDb.StaleVisits | src/lib/visit.ts:255-266 | Lists exactly the abandonable visits, each once |
| VenueHandlers.VenueDb.CloseAbandonedVisit | src/lib/visit.ts:269-278 | Closes one visit as abandoned with what its own bill comes to, and leaves the rest of its record alone |
| VenueHandlers.VenueDb.CloseAbandonedVisits | src/lib/visit.ts:254-282 | The loop closes exactly the abandonable visits and returns how many |
| SettleRace.PaidExactly | src/lib/visit.ts:212-236 | In every interleaving, late writers of visits and statuses included, the orders a settlement has marked are exactly those on the bill it built, once it is done |
| SettleRace.SettledOnce | src/lib/visit.ts:193-248 | In every run in which no checked handler writes a visit closed since its check, two winners of one visit are the same, and the visit is closed with the winner's bill |
| SettleRace.PaidOnce | src/lib/visit.ts:231-236 | In those runs no order is paid by two settlements |
| SettleRace.StandsExactly | src/lib/visit.ts:154-177 | A settled visit keeps its record in every continuation if and only if no handler that checked it before the close has yet to write |
| SettleRace.WritesOnce | src/lib/visit.ts:154-177 | A handler that checked a visit writes it once; the sweep totals the bill first |
| SettleRace.SettledForGoodExactly | src/lib/visit.ts:154-177 | A closed visit can never be settled again if and only if no request to ask for its bill or to dismiss that was checked before the close and has yet to write |
| SettleRace.SecondSettlement | src/lib/visit.ts:158-161 | Whoever reopens a closed visit lets it be settled again and every order still owed for be paid once more |
| SettleRace.PaidTwiceWitness | src/lib/visit.ts:154-164 | A run in which one order is paid by two settlements |
| SettleOutcomes.LoserChangesNothing | src/lib/visit.ts:198-229 | A settlement that ends up losing leaves no trace: every row and every other settlement is as in the run without its statements, and at no point does a visit name it |
| SettleOutcomes.UnforcedBillExactly | src/lib/visit.ts:205-212 | An unforced bill contains food still in the kitchen if and only if an order in the kitchen was placed after the count, or was put back since by a status change checked before it |
| SettleOutcomes.CountHoldsExactly | src/lib/visit.ts:205-212 | What an unforced count found stays true of the orders it saw until the bill is built, in every continuation, if and only if no status change past its check was going to put one of them back |
| SettleOutcomes.OnlyLateOrders | src/lib/visit.ts:205-212 | Then the bill contains food in the kitchen if and only if an order placed after the count is still there |
| SettleOutcomes.LateOrderWitness | src/lib/visit.ts:205-236 | A run in which an unforced settlement marks an order paid that the kitchen has not accepted |
| SettleOutcomes.StaleMoveWitness | src/app/api/desk/orders/[id]/route.ts:25-37 | A run with no order placed in which a served order is put back by a stale status change and marked paid by an unforced settlement |
| SettleRefinement.SettleRefines | src/lib/visit.ts:193-248 | A settlement whose statements run one after another, refused or not, leaves the rows the handler leaves: same visit closed with the same total, same orders paid |
| SettleRefinement.VisitHandlersRefine | src/lib/visit.ts:154-177 | So do asking for the bill, dismissing that and closing an abandoned visit |
| SettleRefinement.OrderStepsRefine | src/app/api/desk/orders/[id]/route.ts:25-37 | So do the status change's check and write, and a withdrawal |
| SettleRefinement.PricesRefine | src/lib/orderEdit.ts:110-126 | So do a correction and a new order, with an order's price as the sum of its lines |
| OrderSubmission.MaxIsCount | src/app/api/orders/route.ts:187-198 | Where numbers are consecutive, the highest one is the number of orders |
| OrderSubmission.FindByKey | src/app/api/orders/route.ts:61-68 | Finds an order of that session and key if there is one |
| OrderSubmission.TicketNumbers | src/app/api/orders/route.ts:184-221 | In every interleaving the numbers are 1, 2, .., n in commit order |
| OrderSubmission.GivesUpOnlyUnderLoad | src/app/api/orders/route.ts:205-221 | A call that gave up saw at least NUMBER_RETRIES others commit during it, and reading the winner back never fails |
| OrderSubmission.OneOrderPerKey | src/app/api/orders/route.ts:57-69 | At most one order exists per session and key |
| OrderSubmission.ReplayExactly | src/app/api/orders/route.ts:57-69 | A submission is answered at once exactly when it carries a key its own session has ordered under; any other is numbered |
| OrderSubmission.UndisturbedInserts | src/app/api/orders/route.ts:186-204 | With nobody in between it is then inserted under the next number and answered with it |
| OrderSubmission.SameKeySameAnswer | src/app/api/orders/route.ts:205-217 | Every answer names a stored order of its own session and key, and submissions sharing them get the same id and number, whichever violated index is reported |
| OrderSubmission.OrderTable.TryInsert | src/app/api/orders/route.ts:186-204 | One transaction with rivals of any key in between: what is stored, and which of the two conflicts is reported, the key's only if the session has ordered under it |
| OrderSubmission.OrderTable.CreateOrderWithNextNumber | src/app/api/orders/route.ts:184-222 | The retry loop gives up if and only if every attempt loses its number; otherwise it answers with an order of its own session and key, new or just stored by a rival, and leaves all earlier orders alone |
| VisitRace.NeverTwoOpen | src/lib/visit.ts:65-90 | Whatever is closed meanwhile, once all scans are done at most one visit of the table is open |
| VisitRace.FindJoinsNewest | src/lib/visit.ts:66-71 | A scan joins the newest visit that is open when it looks, if there is one |
| VisitRace.ListDecides | src/lib/visit.ts:80-89 | A scan gives its own visit up exactly when two or more are open and another is the oldest, and keeps that one |
| VisitRace.ScansTouchOnlyTheirOwn | src/lib/visit.ts:73-89 | A scan adds one open visit or deletes the one it created, and touches no other |
| VisitRace.OldestVisitWins | src/lib/visit.ts:73-89 | Without closes, the oldest open visit stays open and oldest, and every creating scan that finished returned it |
| VisitRace.ExactlyOneOpen | src/lib/visit.ts:65-90 | Without closes, when all scans are done exactly one visit of the table is open |
| VisitRace.TableVisits.OpenOrJoinVisit | src/lib/visit.ts:65-90 | The handler with any number of rival creations before and after its own: it answers with the oldest open visit and discards its own exactly when a rival was ahead |
| RateLimit.CeilIsCeil | src/lib/rateLimit.ts:53 | The reported seconds are the ceiling of the milliseconds left |
| RateLimit.HitCounts | src/lib/rateLimit.ts:43-52 | The first hit of a window goes through and starts it; a later one goes through exactly when fewer than the limit came before |
| RateLimit.EvictsExactly | src/lib/rateLimit.ts:28-45 | Only a hit that starts a window in a full table throws windows out, and exactly those that are over |
| RateLimit.RemainingExactly | src/lib/rateLimit.ts:46-52 | While the window runs the next hit goes through if and only if the answer said some remain, and then one fewer remains |
| RateLimit.RetryAfterExactly | src/lib/rateLimit.ts:53 | After the seconds asked for the window is over, and a second earlier it is not, unless one is all that was asked |
| RateLimit.BothMustAllow | src/lib/rateLimit.ts:98-100 | A write may proceed exactly when its address's window and the scope's both let it through, and both have counted it |
| RateLimit.AddressesApart | src/lib/rateLimit.ts:98 | A write never changes the answer another address's own window gives |
| RateLimit.Limiter.EvictExpired | src/lib/rateLimit.ts:28-32 | The deleting loop keeps exactly the windows still running |
| RateLimit.Limiter.CountHit | src/lib/rateLimit.ts:38-55 | Answers what a limiter that never evicts would answer, leaves a table no later call can tell from its, and takes the counting step of a run |
| RateLimit.Limiter.Clear | src/lib/rateLimit.ts:57-60 | Takes the forgetting step of a run: the key's window is gone and every other stays |
| RateLimit.ClearRefunds | src/lib/rateLimit.ts:57-60 | Forgetting a key gives its whole budget back, and no other key notices |
| RateLimit.FirstHitWitness | src/lib/rateLimit.ts:43-47 | Under a limit of zero or less the first hit of a window still goes through, and the second does not |
| RateLimit.Limiter.WriteBudget | src/lib/rateLimit.ts:92-101 | Both windows are always counted, and both must allow |
| RateLimit.EvictionInvisible | src/lib/rateLimit.ts:28-55 | On any call sequence with a monotone clock, evicting changes no answer |
| RateLimit.SlidingBound | src/lib/rateLimit.ts:38-55 | A key with fixed parameters, never cleared: any half-open interval one window long lets at most twice the limit through |
| RateLimit.WriteBudgetSlidingBound | src/lib/rateLimit.ts:87-101 | Whatever addresses are claimed, any interval one global window long grants at most twice the global limit |
| RateLimit.WriteBudgetWindowBound | src/lib/rateLimit.ts:87-101 | After any such run, a global window still running has granted at most the global limit since it began |
| SessionTouch.StampIsFresh | src/lib/tableSession.ts:80-88 | After an accepted request the stamp is not ahead of the write and less than TOUCH_INTERVAL_MS behind the request |
| SessionTouch.ThrottlingIsSafe | src/lib/tableSession.ts:75-88 | Over any request sequence, throttled touching accepts nobody that touching every time would refuse |
| SessionTouch.BusyPhoneNeverIdlesOut | src/lib/tableSession.ts:75-88 | A phone used at gaps of at most IDLE_MS - TOUCH_INTERVAL_MS is accepted until its hard cap |
| SessionTouch.ExpiryIsFinal | src/lib/tableSession.ts:76-77 | A session once refused for its clock is refused for good |
| SessionTouch.SessionRow.GetActive | src/lib/tableSession.ts:67-97 | Accepts exactly when every check passes, and writes the stamp exactly when it is due |
| MenuCache.CallsAreFresh | src/lib/menu.ts:51-54 | In every run, a call gets a promise of its own venue, not failed, started after the venue's last event, and never resolving to older data |
| MenuCache.CallsShareOneLoad | src/lib/menu.ts:112-128 | Between disturbances of a venue every call gets the same promise and no second load starts |
| MenuCache.LoadsPersist | src/lib/menu.ts:117-128 | A load keeps its venue and its start, and once over stays over |
| MenuCache.Cache.VenueMenu | src/lib/menu.ts:117-128 | The call's step of the run: returns the cached promise or starts exactly one load, of that venue, not failed, and started after the venue's last event |
| MenuCache.Cache.OnMenuChanged | src/lib/menu.ts:51-53 | The event's step of the run: no promise from before it is left for the venue |
| MenuCache.Cache.OnLoadFailed | src/lib/menu.ts:120-124 | The failure's step of the run: the failed promise is never handed out again |
| KitchenPaper.CorrectionLowers | src/lib/orderEdit.ts:77-119 | Every correction that lands lowers the number of portions a ticket would show |
| KitchenPaper.ShowsExactly | src/lib/pos/outbox.ts:61-75 | A ticket lists the lines that are not voided and no other, each in its place with its own quantity, name, note, price and options |
| KitchenPaper.EnqueueWritesWhatItRead | src/lib/pos/outbox.ts:24-37 | Accepting an order asks for a ticket; an enqueue writes what the order showed when it read it, marked as an amendment exactly if it is one, whatever happens in between |
| KitchenPaper.AmendmentExactly | src/app/api/desk/orders/[id]/items/route.ts:32-36 | A correction that lands asks for one amendment if and only if there was a ticket when its dialog read the order |
| KitchenPaper.NewestTicketExactly | src/lib/pos/outbox.ts:24-37 | In every run the newest ticket shows the order as it is, line for line, if and only if no correction has landed since its enqueue read it |
| KitchenPaper.PaperFailsExactly | src/lib/pos/outbox.ts:24-37 | In every run, corrections and enqueues each split into read and write: the kitchen has wrong paper and no amendment coming if and only if tickets were written out of order, or nothing was printed since the last correction because its dialog had seen no ticket or its amendment failed |
| KitchenPaper.PaperAgrees | src/app/api/desk/orders/[id]/items/route.ts:32-36 | While tickets are written in the order read and no amendment fails, the kitchen has wrong paper and no amendment coming if and only if there is a ticket, the last correction's dialog had seen none, no ticket has been read since that correction, and no amendment is pending |
| KitchenPaper.OvertakenEnqueueWitness | src/lib/pos/outbox.ts:24-37 | For any quantities: a correction slips into an enqueue and the only ticket stays wrong |
| KitchenPaper.EarlyDialogWitness | src/lib/orderEdit.ts:57-106 | For any quantities: every enqueue runs whole, but the dialog read before the first ticket existed and commits after it |
| KitchenPaper.SwappedAmendmentsWitness | src/lib/pos/outbox.ts:155-166 | For any quantities: two announced corrections whose amendments are written the other way round |
| Pricing.TapsKeepSelection | src/components/customer/ItemSheet.tsx:38-49 | After any taps the chosen ids are distinct, belong to the item, and stay within each group's maximum |
| Pricing.TapChoosesOne | src/components/customer/ItemSheet.tsx:41-44 | In a group of one, tapping chooses the option in place of any other, or takes it back if none is required; other groups keep their choice |
| Pricing.TapChoosesSeveral | src/components/customer/ItemSheet.tsx:45-47 | In a group of several, tapping a chosen option takes it back, and another is added at the end while there is room |
| Pricing.ShownPrice | src/components/customer/ItemSheet.tsx:31-36 | The price shown is the item's own, plus the price of each option chosen, whatever the order |
| Pricing.PressesMean | src/components/customer/ItemSheet.tsx:146-150 | The quantity starts at one and each press moves it by one between one and twenty |
| Pricing.GroupsDisjoint | src/app/api/orders/route.ts:109-111 | With ids as primary keys, groups share no option |
| Pricing.WeightSymmetric | src/components/customer/ItemSheet.tsx:31-36 | Weighing the common elements of two duplicate-free lists from either side gives the same sum |
| Pricing.SumsAgree | src/app/api/orders/route.ts:112-123 | The server's sum in the order tapped equals the sheet's sum in menu order |
| Pricing.SelectionPriced | src/app/api/orders/route.ts:109-123 | Any selection within its groups is found in full, passes the group checks exactly when the sheet is valid, and is priced as shown |
| Pricing.PreviewIsCharge | src/components/customer/ItemSheet.tsx:27-49 | After any taps and presses on an unchanged menu the server accepts the line if and only if the sheet is valid and at most 20 options are chosen, and charges the unit price shown |
| Pricing.PlacedTotalIsItemised | src/app/api/orders/route.ts:123-132 | The accumulated total is the itemised price of the stored lines |
| Pricing.PriceCartLine | src/app/api/orders/route.ts:100-132 | One line's checks in order: item, options, the first offending group, or its price |
| Pricing.PricedLineMeans | src/app/api/orders/route.ts:98-132 | A line is refused for an item missing or unavailable, then for an option not the item's; otherwise, unless a group is out of bounds, it is stored under the item's name with the note and quantity sent and the names of the options sent, in order |
| Pricing.FirstBadGroup | src/app/api/orders/route.ts:117-122 | A line is refused for a group exactly when some group's count is out of its bounds, and for the first of them |
| Pricing.CollectedMeans | src/app/api/orders/route.ts:100-122 | The first refused line refuses the whole order and says why; otherwise each line is charged at its own price |
| Pricing.PriceOrder | src/app/api/orders/route.ts:90-133 | The loop answers just that, and the accumulated total is the itemised price of the lines to be stored |
| CsvExport.NeutralIsSafe | src/app/api/admin/orders/export/route.ts:20-27 | No exported text begins with =, +, -, @, a tab or a carriage return; the apostrophe is added exactly to text that did |
| CsvExport.FieldBack | src/app/api/admin/orders/export/route.ts:23-27 | A reader gets a printed field's content back and stops at its delimiter |
| CsvExport.RowsBack | src/app/api/admin/orders/export/route.ts:52-56 | Joined rows of two fields or more read back as the same rows |
| CsvExport.ExportRoundTrip | src/app/api/admin/orders/export/route.ts:23-56 | A reader following section 2 of RFC 4180 (LF accepted as record break) recovers the header and each row, text equal up to the apostrophe |
| CsvExport.OneRowPerLine | src/app/api/admin/orders/export/route.ts:31-54 | Row after row is the order lines, order by order |
| CsvExport.NoOtherRows | src/app/api/admin/orders/export/route.ts:31-54 | And there are no others |
| CsvExport.RecordOfLine | src/app/api/admin/orders/export/route.ts:34-51 | The fifteen fields a reader finds for an order line, in the header's order |
| CsvExport.PushRows | src/app/api/admin/orders/export/route.ts:32-54 | The inner loop pushes one row per line |
| CsvExport.ExportCsv | src/app/api/admin/orders/export/route.ts:28-56 | The loop's text is that file, and reads back as the header and one 15-field record per order line |

## Left out

- Venues: VenueFloor, OrderSubmission and MenuCache's database version stand for one server; only the outbox, the desk edit and the cache carry a venue id.
- Rows are never deleted, apart from the visit a losing scan discards; admin deletion of tables and data retention are not modelled, nor are the null foreign keys they leave.
- PosOutbox.Outbox.AttemptDelivery: one push attempt reads, delivers and writes in one step, here and in BridgeProtocol; two overlapping attempts on one row are not modelled. The source's one push adapter, the console, always delivers; refusals are modelled too. Rows for the bridge are not affected.
- An ack checks that the row is claimed, not by whom, as the source does; nothing is claimed about an ack settling only its own claim.
- Claim ids are the index of the poll, which stands for a fresh random id.
- KitchenPaper models a ticket as its structured lines: ESC/POS layout, code page 857 and the wording of an amendment are not modelled.
- VenueFloor takes each handler but the status PATCH as one step. Races inside openOrJoinVisit, settleVisit, editOrder, the bill request and its dismissal, and the abandoned-visit sweep have modules of their own. EditRace and KitchenPaper let a status change land on any status at any moment, which includes every way a PATCH can be split.
- VenueFloor.FastBillIsItemised: over runs whose corrections name no line twice and are not raced; for the others OrderEdit.TotalRightExactly and EditRace.StoredTotalExactly say when a stored total is right.
- VenueFloor lets any session that exists place an order, so that requests in flight when a session is revoked are included; sessions from before visits existed, with no visit, are not.
- VisitRace.OldestVisitWins: about scans that create a visit; a scan that joins may be given a transient row that is then deleted, as in the source.
- SettleRace tracks an order's itemised price as one number, and lets the sweep list any open visit; the method of payment and the session revocation are in VenueHandlers.
- SettleRace.SettledOnce: over runs in which no handler writes a visit closed since its check; for the others SettleRace.SettledForGoodExactly says when a second settlement is possible.
- OrderSubmission leaves out the per-session and per-table order caps, the attempt ledger and the back-off delay; an interleaving may delay any call at will.
- SessionTouch takes a session's requests one after another; overlapping requests of one phone are not modelled. Token lookup is not modelled.
- RateLimit.WriteBudgetWindowBound: stated for a global window of at least one second; every caller's window is. The proxy-dependent reading of the client address is a parameter.
- Pricing: trimming of notes, currency formatting and the JSON text of modifiers are not modelled; a note is assumed within the schema's 200 characters.
- Pricing.PreviewIsCharge: on a menu that is unchanged and well formed (ids are keys, a group's maximum is at least one, as the menu editor requires).
- CsvExport takes numbers, timestamps, statuses and two-decimal amounts as text that needs no quoting; the day-range parameter and the response headers are not modelled.
- The desk list's sort order, period reports, percentage change, day boundaries and pagination: small or library behaviour.
- Event publishing, staff authentication, signed codes, bridge keys, photo storage, React components, internationalisation and deployment are not modelled.
- Nothing was executed.
