# TwentyFour platform: models and proofs

The platform's promises rest on a few transactional cores. This project models those
cores and proves what they promise over every run. Each core is a pair of files where the
source changes state: one in which transactions (or relays, workers, consumers) take their
next statement at any moment and may be rolled back or die at any point, and one in which
the calls are written as the source writes them, on tables updated in place, each call
stating its whole effect and shown to be one of those runs.

To verify: `dafny verify dfyconfig.toml` (Dafny 4.11).

| area | files | what is promised |
|---|---|---|
| Kitchen tickets | `Kitchen`, `KitchenStore`, `Printer` | a ticket's stored state is always what its lines derive to, or passed for good; one announcement a passed ticket, one cook a line; where the lock order leaves a deadlock and where not |
| Bookings | `Bookings`, `Diary`, `Slots` | never more bookings on a resource at an instant than its capacity, or than it once had when capacities are lowered; the times offered are exactly the ones the check has room for; nobody waits in a circle |
| Event path | `EventPath`, `EventLoops` | at least once on the bus, at most once applied, exactly once when drained, from where a group began |
| Ledger | `Posting`, `Ledger`, `Reports` | posting rules account by account; an append-only journal in which every period balances and the two reports agree; reversal chains |
| Money | `Money` | rounding bounds, the round trip between net and gross, and exactly when 64-bit words suffice |
| Invoicing | `Numbering`, `Documents`, `Invoicing`, `InvoiceStore`, `Calendar`, `Billing` | numbers without gaps under rollback and retry, totals that add up, one invoice a renewal, renewals in order |
| Inventory | `Inventory` | levels are the sum of moves; warnings are edges |
| Dashboard layout | `Layering`, `Drawing` | depth is the longest path; nothing overlaps |
| Catalogue pages | `PageToken`, `Catalog` | a walk returns every item that stays exactly once |
| Revenue breakdown | `Analytics` | nothing lost in folding; shares that add up |

`Common` holds what several of them use.

Tables are maps or sequences and a statement is a step. Row locks last until the end of a
transaction; a statement reads what is committed and what its own transaction wrote.
Unique indexes and checks are those of the migrations beside each service. Instants are
integers, identifiers are numbers, and money is in minor units.

## Where the code and its word part

The models follow the code. Where a promise made around the code does not hold of it,
there is a lemma with a concrete case, and one that says exactly when it does hold (but
for the last, a case the service refuses, where the condition given is sufficient):

- A sale whose whole amount is tax makes a revenue line of nothing, which the lines table
  refuses: such a sale is never booked (`Ledger.AllTaxSale`, `Ledger.AllTaxIsRefused`;
  `Ledger.SaleIsBookedIff` says which sales are). Its message fails each time it is
  delivered, and since a consumer commits nothing past a failure it holds up its partition.
- The comment in `Apply` says a repeat returns what the first attempt produced; it returns
  the level as it stands by then (`Inventory.RepeatMayDiffer`; `Inventory.RepeatAgreesIff`
  says when the two agree).
- `ReservedFor` is described as what lets a release refuse to give back more than was
  taken, and nothing calls it: one reference can give back what another holds
  (`Inventory.ReferencesMayBorrow`; asking it first is exactly what would prevent that,
  `Inventory.NothingBorrowedIff` and `Inventory.NobodyEverBorrowsIff`).
- A billing cycle that read a subscription before others billed it moves the renewal date
  back (`Billing.StaleCycleTurnsBack`; `Billing.TurnsBackIff` says when, and
  `Billing.SoloNeverTurnsBack` that it takes two cycles at once); the key alone keeps the
  tenant from paying twice (`Billing.OneInvoicePerRenewal`).
- The key of a renewal is one a merchant can choose for a document of their own, which the
  cycle then takes for its invoice (`Billing.TakenKeyPassesUnbilled`;
  `Billing.NothingPassesUnbilledIff` says exactly when a renewal is invoiced).
- A subscription that is cancelled is to end on its renewal date, the month paid for, and
  the cycle that ends it invoices the next period first, whenever that costs anything
  (`Billing.CancelledIsBilledOnceMore`; `Billing.CancelledStaysOut` that nothing follows).
- A consumer that names its topics begins at the end of what it has no offset for, so a
  record published before then is passed over (`EventPath.JumpedOver`;
  `EventPath.ExactlyOnceWhenDrainedIff` says when each event takes effect exactly once).
- Lowering a resource's capacity leaves more bookings on it than it holds
  (`Bookings.LoweringCanBreakIt`; `Bookings.LoweringBreaksExactlyWhenFuller`, and
  `Bookings.NeverOverWhatItHeld` for what is kept all the same).
- Two voids of one ticket that come to its lines in different orders wait for each other
  (`Kitchen.DeadlockIsReached`; `Kitchen.CircleVoidsTogether` says that nothing else does,
  and `Kitchen.SomebodyCanMove` exactly when everything stands still).
- Availability fetches 48 hours from midnight on, which around the night the clocks go
  back is short of a window that closes late the next night
  (`Slots.LongDayOverlooksABooking`; `Slots.OffersFromFetchedIff` says exactly when what
  is fetched is enough).
- The check under the lock counts the bookings that overlap, not how many of them do at
  once, so on a resource for two or more it can refuse a booking there is room for
  (`Bookings.CheckIsConservative`; `Bookings.CheckIsExactIff`).
- Times after midnight are offered from the previous day's overnight window and refused by
  the opening check (`Slots.AfterMidnightIsRefused`; `Slots.OfferedIsOpenIff` says
  which offers the check agrees with).
- A graph with a cycle can leave tiers empty and a box below the canvas
  (`Drawing.CycleFallsOff`; `Drawing.FitsDownIff` says exactly when everything fits).
- Shares can add up to more than the whole when an amount is negative
  (`Analytics.NegativePartsOverrun`; `Analytics.SharesExactly` says exactly when, and
  `Analytics.SharesAddUp` bounds them in every case).
- A number with a hyphen in the merchant code does not read back (`Numbering.ParseFormat`).
- An item without a name, which the service does not accept, would make paging start again
  (`Catalog.NamelessRepeats`).

## Model

| member | source | states |
|---|---|---|
| `Kitchen.StateFromLines` | platform/services/kitchen/internal/store/store.go:182-206 | the counting loop: voided when no line is still on, ready when all that are on are done, waiting when all are still to do, and otherwise cooking |
| `Kitchen.CommittedStateIsDerived` | platform/services/kitchen/internal/store/store.go:226-521 | from an empty database, after any interleaving of Claim, Complete, VoidLine, Pass, VoidTicket and Create, with aborts anywhere: a committed ticket is passed with every line done or voided, or its state is what its lines derive to; it has one passed event exactly when passed; a line has one committed claim, by the cook it shows |
| `Kitchen.CommittedStateSays` | platform/services/kitchen/internal/store/store.go:182-521 | so, spelled out and after any interleaving: a committed ticket that is not passed is voided exactly when no line is still on, ready exactly when all that are on are done, cooking exactly when some are to do and some begun or done, and waiting otherwise |
| `Kitchen.EveryRunKeepsTicketsDerived` | platform/services/kitchen/internal/store/store.go:353-521 | the invariant behind it, over committed and uncommitted rows and the locks held, is kept by every run |
| `Kitchen.RunOnlyMovesForward` | platform/services/kitchen/internal/store/store.go:353-521 | nothing committed is taken back: passed is never left, no line moves backwards, leaves its ticket or changes cook |
| `Kitchen.OthersOnlyDelay` | platform/services/kitchen/internal/store/store.go:353-521 | whatever else runs, a transaction is refused and goes on exactly as it would alone; others only make it wait |
| `Kitchen.SomebodyCanMove` | platform/services/kitchen/internal/store/store.go:410-521 | line locks before the ticket lock leave one way to deadlock: while anything is in flight nobody can move exactly when every transaction is a voider whose remaining lines other voiders of the same ticket hold, or has not begun and waits for a line of theirs; and then two are voiding one ticket |
| `Kitchen.CircleVoidsTogether` | platform/services/kitchen/internal/store/store.go:410-521 | however many others are at work, a circle of transactions waiting for each other is all of transactions that void one ticket |
| `Kitchen.DeadlockIsReached` | platform/services/kitchen/internal/store/store.go:501-521 | that state is reached from an empty database by two voids of one two-line ticket that take its lines in opposite orders |
| `Kitchen.EmptyTicketDisagrees` | platform/services/kitchen/cmd/kitchend/printer.go:41-128 | a ticket without lines would be stored as waiting and derive to voided, which is why the printer never sends one |
| `KitchenStore.Store.MutateLine` | platform/services/kitchen/internal/store/store.go:353-452 | Claim, Complete and VoidLine in place: a claim takes exactly a waiting line and gives it its cook, completing exactly a waiting or claimed one and keeps the cook, voiding exactly one not voided; the ticket is then as its lines say, or still passed; each failure, with nothing changed; a run of the model |
| `KitchenStore.Store.PassTicket` | platform/services/kitchen/internal/store/store.go:454-499 | Pass in place: repeated on a passed ticket, refused unless ready, otherwise the state and one event; a run of the model |
| `KitchenStore.Store.VoidWholeTicket` | platform/services/kitchen/internal/store/store.go:501-521 | VoidTicket in place: every line voided, the ticket voided unless passed; a run of the model |
| `KitchenStore.Store.CreateTicket` | platform/services/kitchen/internal/store/store.go:226-271 | Create in place: once per order, a redelivered order changing nothing, a key that is taken refused; otherwise the ticket and its lines all waiting; a run of the model |
| `KitchenStore.VoidIsRun` | platform/services/kitchen/internal/store/store.go:501-521 | voiding line by line and then the ticket reaches exactly the state where all of it is voided |
| `KitchenStore.TicketCanBePassed` | platform/services/kitchen/internal/store/store.go:353-499 | from every reachable state, with whatever is under way, a ticket not yet out that has a line still on can be got out: its waiting and claimed lines done by the cook they have, no other line changed, the ticket passed and announced once |
| `Printer.Place` | platform/services/kitchen/cmd/kitchend/printer.go:41-128 | what the printer sends has a line for each routed item and is never empty |
| `Printer.TicketIsTheOrder` | platform/services/kitchen/cmd/kitchend/printer.go:41-128 | and each of its lines is an item of the order, in order, with that item's name and quantity, at the station its category or the default names |
| `Bookings.NoOverbooking` | platform/services/bookings/internal/store/store.go:289-601 | over every interleaving of Create, Reschedule, SetStatus and PutResource that never lowers a capacity, at every instant the confirmed and arrived bookings on a resource number at most its capacity; references and idempotency keys are unique |
| `Bookings.RunKeepsInv` | platform/services/bookings/internal/store/store.go:289-601 | over every run, capacities lowered or not: transactions in flight that hold the resource lock still have the room they counted; references and keys are unique |
| `Bookings.NeverOverWhatItHeld` | platform/services/bookings/internal/store/store.go:145-601 | over every run, lowering included: the active bookings at an instant never number more than the resource had room for at some time of the run |
| `Bookings.OneAtATime` | platform/services/bookings/internal/store/store.go:289-390 | on a resource for one, two active bookings never overlap |
| `Bookings.OverlapBoundsDepth` | platform/services/bookings/internal/slots/slots.go:124-132 | what covers an instant of a booking is at most what overlaps it, and itself |
| `Bookings.CheckExactForOne` | platform/services/bookings/internal/store/store.go:289-537 | for capacity one the overlap check admits exactly the bookings, new or moved, that keep the bound |
| `Bookings.CheckIsConservative` | platform/services/bookings/internal/slots/slots.go:115-132 | for every capacity of two or more there is a diary in which it refuses a booking that would keep it |
| `Bookings.CheckIsExactIff` | platform/services/bookings/internal/slots/slots.go:115-132 | so the check admits exactly what keeps the bound, in every diary and for every booking, new or moved, on the resources that hold at most one and on no others |
| `Bookings.WaitsUpward` | platform/services/bookings/internal/store/store.go:289-601 | whoever waits for a lock waits for one that is further along |
| `Bookings.NoCircle` | platform/services/bookings/internal/store/store.go:289-601 | so waiting never closes a circle, among any of the four operations |
| `Bookings.HeadCanMove` | platform/services/bookings/internal/store/store.go:289-601 | and at the head of every queue is one that can move |
| `Bookings.OthersOnlyDelay` | platform/services/bookings/internal/store/store.go:289-601 | whatever else runs, a transaction is refused and goes on exactly as it would alone; others only make it wait |
| `Bookings.FiveReferences` | platform/services/bookings/internal/store/store.go:289-390 | over every run an insert is tried under no more than five references |
| `Bookings.LoweringBreaksExactlyWhenFuller` | platform/services/bookings/internal/store/store.go:145-601 | of all steps of all operations, one breaks the bound exactly when it commits a capacity that some instant is already fuller than |
| `Bookings.LoweringCanBreakIt` | platform/services/bookings/internal/store/store.go:145-183 | a run from an empty database that ends with two active bookings at an instant on a resource for one |
| `Bookings.RunEvolves` | platform/services/bookings/internal/store/store.go:539-601 | no run leads a booking back into an active status or past the table of allowed moves |
| `Bookings.ServedHadCome` | platform/services/bookings/internal/store/store.go:539-601 | over every run, a booking is completed only if it had arrived before |
| `Bookings.WhoCameStaysOrLeaves` | platform/services/bookings/internal/store/store.go:539-601 | and one that has arrived is never a no-show afterwards |
| `Diary.Diary.HasRoom` | platform/services/bookings/internal/store/store.go:289-390 | the count made under the lock: not found, taken, or room |
| `Diary.Diary.CreateBooking` | platform/services/bookings/internal/store/store.go:289-390 | Create in place with its five references: a repeat exactly when a key is given and was used, no such resource, taken, refused by the table, no free reference, and success otherwise, under the first free one; each with the whole new state; a run of the model |
| `Diary.RepeatIsRun` | platform/services/bookings/internal/store/store.go:296-312 | a create under a key that was used finishes at once and leaves the rows as they are |
| `Diary.Diary.Move` | platform/services/bookings/internal/store/store.go:457-537 | Reschedule in place: succeeds exactly when there is room beside itself, the booking is confirmed or arrived and the times are in order; which failure otherwise; a run of the model |
| `Diary.Diary.ChangeStatus` | platform/services/bookings/internal/store/store.go:539-601 | SetStatus in place: succeeds exactly when the booking is there and the status is the one it has, or goes from confirmed to arrived, cancelled or no-show, or from arrived to completed or cancelled; a repeat changes nothing; a run of the model |
| `Diary.ActiveCanEnd` | platform/services/bookings/internal/store/store.go:539-601 | from every reachable state, with whatever is under way, a confirmed or arrived booking can still become cancelled, and completed |
| `Slots.CountOverlaps` | platform/services/bookings/internal/slots/slots.go:124-132 | the overlap loop counts the bookings that run over the interval |
| `Slots.CountIsCardinality` | platform/services/bookings/internal/store/store.go:262-282 | counting the fetched rows is counting the bookings themselves |
| `Slots.WithinOpening` | platform/services/bookings/internal/slots/slots.go:137-166 | true exactly when one of the windows of the start's own weekday holds the whole interval |
| `Slots.SortByStart` | platform/services/bookings/internal/slots/slots.go:63-110 | sorted by start and a permutation |
| `Slots.Free` | platform/services/bookings/internal/slots/slots.go:63-110 | the offered slots in start order and nothing else, none for a step or duration that is not positive |
| `Slots.FreeExactly` | platform/services/bookings/internal/slots/slots.go:63-110 | a slot is offered exactly when it starts on the grid of a window of that weekday, not before now, ends by closing and fits the capacity |
| `Slots.OfferedIsOpenIff` | platform/services/bookings/internal/slots/slots.go:63-166 | what is offered passes the opening check exactly when it starts on the date asked for or a window of the date it starts on holds it too |
| `Slots.AfterMidnightIsRefused` | platform/services/bookings/internal/slots/slots.go:63-166 | a start after midnight in an overnight window is offered by one and refused by the other |
| `Slots.OffersFromFetchedIff` | platform/services/bookings/cmd/bookingsd/main.go:321-344 | the bookings of 24 hours before the date to 48 after give the slots that all bookings would, whatever they are, exactly when the resource takes none or every start to come on the date's grids lies, to its end, in that time |
| `Slots.OffersFromFetched` | platform/services/bookings/cmd/bookingsd/main.go:321-344 | so on every date of no more than 24 hours before one of no more than 24 |
| `Slots.LongDayOverlooksABooking` | platform/services/bookings/cmd/bookingsd/main.go:321-344 | on a date of 25 hours a window that closes late the next night is offered a time that a booking not fetched is in the way of |
| `Slots.OfferedHasRoom` | platform/services/bookings/cmd/bookingsd/main.go:286-344 | what availability offers, the check under the lock has room for |
| `Slots.FitsIsRoom` | platform/services/bookings/cmd/bookingsd/main.go:416-473 | a resource is free for a time exactly when the check under the lock would admit a booking of it |
| `Slots.PickAny` | platform/services/bookings/cmd/bookingsd/main.go:448-473 | the first resource open throughout and free; otherwise which of the three refusals |
| `Slots.PickNamed` | platform/services/bookings/cmd/bookingsd/main.go:428-446 | the first with the id when it is open throughout, free or not; otherwise which of the two refusals |
| `Slots.PickResource` | platform/services/bookings/cmd/bookingsd/main.go:416-473 | the whole choice: nothing set up, no id, no such resource, outside hours, closed or full, and which resource otherwise |
| `EventPath.AtLeastOncePublishedAtMostOnceApplied` | platform/packages/outbox/outbox.go:81-215 | over every run of commits, drains, crashes between publishing and committing, redelivery and purges: no committed event is lost before it is on the bus, every record from where a group began up to its committed offset was handled or skipped, and each event takes effect at most once a consumer group |
| `EventPath.RunKeepsInv` | platform/packages/bus/bus.go:131-222 | the invariant behind it, over relays holding rows, members half way through a batch, and where each group began: at the beginning for a consumer by pattern, at an end for a named one |
| `EventPath.ExactlyOnceWhenDrainedIff` | platform/packages/bus/bus.go:131-284 | once everything is published and committed on the partitions a group subscribes to, what took effect is what was enqueued there and not skipped, once each, exactly when no record lies unhandled before where the group began |
| `EventPath.ExactlyOnceFromTheBeginning` | platform/packages/bus/bus.go:145-222 | so always for a group that reads from the beginning |
| `EventPath.OnceFromWhereItBegan` | platform/packages/bus/bus.go:145-222 | and for any group, of every event with a record at or after where it began |
| `EventPath.JumpedOver` | platform/packages/bus/bus.go:145-157 | a run in which a named consumer comes between two records: drained, the first has not taken effect |
| `EventPath.ResumingPastAFailureLosesIt` | platform/packages/bus/bus.go:213-217 | were a poll to start past a record that failed, committing would lose it even to a group that began at the beginning: the assumption on the client is needed |
| `EventPath.BackoffBounded` | platform/packages/outbox/outbox.go:143-215 | the more often a row has failed the longer it waits, between two seconds and five minutes |
| `EventPath.EveryFailureCounts` | platform/packages/outbox/outbox.go:143-215 | over every run: a row's attempts are the failed publishes it was part of, and it may next be claimed 2, 4, 8 and on to 256 seconds after the first, second, third and eighth, and 300 after each later one |
| `EventPath.ClaimsWhatIsDue` | platform/packages/outbox/outbox.go:143-215 | a relay claims rows exactly when all are written and not published, their time has come and no other relay holds one |
| `EventPath.WaitsForItsOwnGroup` | platform/packages/bus/bus.go:257-284 | a member that comes to a record its group has yet to handle waits exactly while another of its group has it open |
| `EventLoops.SentKeepsOrder` | platform/packages/outbox/outbox.go:143-215 | each partition grows by the ids bound for it in the order claimed |
| `EventLoops.Platform.PublishAll` | platform/packages/outbox/outbox.go:143-215 | the publish loop appends each record to its partition in turn |
| `EventLoops.Platform.Drain` | platform/packages/outbox/outbox.go:143-215 | in place: everything published and marked, or each row of the batch counts the attempt and waits 2, 4, 8 and on to 300 seconds by how often it has failed; a run of the model |
| `EventLoops.Platform.Purge` | platform/packages/outbox/outbox.go:211-229 | in place: exactly what was published longer ago than the age goes, and nothing when the age is nothing; a run of the model |
| `EventLoops.Platform.Once` | platform/packages/bus/bus.go:257-284 | the handler runs exactly when the claim is new, and then once |
| `EventLoops.Platform.Handle` | platform/packages/bus/bus.go:257-284 | skips, repeats and failures leave the group as it was |
| `EventLoops.Platform.HandOverAll` | platform/packages/bus/bus.go:173-222 | hands records over up to the first that fails |
| `EventLoops.Platform.RunBatch` | platform/packages/bus/bus.go:173-222 | offsets are committed when none failed and not otherwise; a run of the model |
| `EventLoops.RoundApplies` | platform/packages/bus/bus.go:173-284 | a round applies each new event it reaches exactly once, however often the batch repeats it |
| `EventLoops.RoundIsRun` | platform/packages/bus/bus.go:173-222 | the loop as written is a run of polls, deliveries and commits |
| `EventLoops.CanAlwaysBeDrained` | platform/packages/outbox/outbox.go:143-215 | from every reachable state, whatever failed and whoever crashed, some further run publishes everything committed so far and brings a group to the end of what it subscribes to; read from the beginning, each event it wants has then taken effect exactly once |
| `Posting.BookSale` | platform/services/ledger/internal/posting/posting.go:95-157 | the loop over tenders and what follows: an entry unless the order comes to nothing, whose effect on every account is the sale's |
| `Posting.Describe` | platform/services/ledger/internal/posting/posting.go:66-232 | each topic becomes its entry or nothing, under the right kind, reference and currency, with the effect on every account that its event says |
| `Posting.Balanced` | platform/services/ledger/internal/posting/posting.go:52-58 | true exactly when the lines sum to zero |
| `Posting.Backwards` | platform/services/ledger/internal/posting/posting.go:188-190 | every line with its sign flipped, in order |
| `Posting.SaleSum` | platform/services/ledger/internal/posting/posting.go:95-157 | a sale's lines sum to the greater of what was charged and what was taken, less its net (or gross, when it carries no split) and tax |
| `Posting.SaleBalancesIff` | platform/services/ledger/internal/posting/posting.go:95-157 | so exactly when a sale balances |
| `Posting.SaleByAccount` | platform/services/ledger/internal/posting/posting.go:83-157 | account by account: cash tenders go to the drawer, transfers to the bank, every other to the processor; the customer owes the rest; revenue is net, tax a liability, and nothing else moves |
| `Posting.TakenSplits` | platform/services/ledger/internal/posting/posting.go:84-93 | cash, transfers and the rest are between them everything tendered |
| `Posting.DescribedEffect` | platform/services/ledger/internal/posting/posting.go:66-232 | every entry does to every account what its event says: a sale as above, a void the opposite, a refund its amount to refunds and out of the account of its own method |
| `Posting.VoidCancelsSale` | platform/services/ledger/internal/posting/posting.go:159-192 | a void negates the sale account by account, and there is one exactly when there is the other |
| `Posting.RefundBalances` | platform/services/ledger/internal/posting/posting.go:194-232 | a refund balances, lands in refunds, comes out of the drawer, the bank or the processor by its own method, and leaves every other account alone |
| `Posting.SaleLinesClean` | platform/services/ledger/internal/posting/posting.go:95-157 | the accounts are all built in, and the only line that can be of nothing is the revenue of a sale that is all tax |
| `Ledger.RunKeepsInv` | platform/services/ledger/internal/store/store.go:75-302 | after any run of seeding, posting, booking and reversing (whose first read may be stale), every entry balances on accounts of the chart with no empty line, reversals mirror an earlier entry, and the journal only grew |
| `Ledger.NothingTwice` | platform/services/ledger/internal/store/store.go:170-302 | over every run no two entries have an id, an event, a key or what they reverse in common |
| `Ledger.PostSays` | platform/services/ledger/internal/store/store.go:170-251 | an entry is written exactly when it has lines that balance and can all be written and nothing in the journal is in its way; the errors in the order they are found, and a repeat answered with the row of the first time |
| `Ledger.ReverseSays` | platform/services/ledger/internal/store/store.go:258-302 | a reversal is written exactly when the entry was there to be read, nothing read reverses it and nothing written meanwhile does; it is the entry backwards, line by line; which error otherwise |
| `Ledger.ReversedAtMostOnce` | platform/services/ledger/internal/store/store.go:258-302 | an entry has at most one reversal, whatever ran at the same time |
| `Ledger.ChainParity` | platform/services/ledger/internal/store/store.go:258-302 | n reversals in a chain leave the entry's effect or none by the parity of n |
| `Ledger.SaleIsBookedIff` | platform/services/ledger/cmd/ledgerd/bookkeeper.go:31-87 | a sale reaches the journal exactly when its currency is the books', its split adds up and it is not all tax |
| `Ledger.MessageIsBookedIff` | platform/services/ledger/cmd/ledgerd/bookkeeper.go:31-87 | any message reaches the journal exactly when it is a tenant's, the rules make an entry of it that balances, with no line of nothing, in the books' currency or none, and its event is new; what is skipped and what refused |
| `Ledger.AllTaxIsRefused` | platform/services/ledger/cmd/ledgerd/bookkeeper.go:31-87 | a paid sale that is all tax is refused whatever the books hold, and refused again on redelivery |
| `Ledger.AllTaxSale` | platform/services/ledger/cmd/ledgerd/bookkeeper.go:31-87 | one such sale: a hundred in cash for a hundred of tax |
| `Ledger.RedeliveryIsHarmless` | platform/services/ledger/internal/store/store.go:170-251 | an event booked once is not booked again, and the repeat is answered with the first entry |
| `Ledger.SeededHoldsBoth` | platform/services/ledger/internal/store/store.go:75-88 | seeding adds the built-in accounts, keeps the tenant's and repeats none |
| `Ledger.Store.EnsureChart` | platform/services/ledger/internal/store/store.go:75-88 | the seeding loop in place |
| `Ledger.Store.WriteLines` | platform/services/ledger/internal/store/store.go:214-230 | lines are written up to the first unknown account or line of nothing, and a refusal takes the entry row with it |
| `Ledger.Store.PostEntry` | platform/services/ledger/internal/store/store.go:170-251 | Post in place, with its refusals, its conflict and its rollback |
| `Ledger.Store.ReverseEntry` | platform/services/ledger/internal/store/store.go:258-302 | Reverse in place |
| `Ledger.Store.HandleMessage` | platform/services/ledger/cmd/ledgerd/bookkeeper.go:31-87 | the gate between the rules and the journal, check by check |
| `Reports.TrialBalance` | platform/services/ledger/cmd/ledgerd/main.go:312-350 | one column for each row, read positive on the side the account grows, the totals of both columns, and whether they agree |
| `Reports.RowsAre` | platform/services/ledger/internal/store/store.go:391-420 | a row for each account of the chart with a line in the period, from its start on and before its end, and for each that never had one, and no other |
| `Reports.ColumnsAgreeIff` | platform/services/ledger/internal/store/store.go:391-420 | debits equal credits exactly when the entries of the period sum to zero, whatever accounts the query drops |
| `Reports.FiguresSumToPeriod` | platform/services/ledger/internal/store/store.go:391-420 | summing account by account is summing entry by entry |
| `Reports.BooksBalance` | platform/services/ledger/internal/store/store.go:170-420 | for every reachable journal and every period the trial balance balances |
| `Reports.SaleThenVoid` | platform/services/ledger/internal/posting/posting.go:159-192 | a sale booked and then voided leaves every account where it was |
| `Reports.AccountLedger` | platform/services/ledger/internal/store/store.go:452-503 | not found, or the opening balance, the running balance after each row as opening plus the rows so far, and the balance it closes on |
| `Reports.LedgerRowsInOrder` | platform/services/ledger/internal/store/store.go:476-484 | rows come by date and then by line, each a line on the account from the start of the period on and before its end, and all of them when nothing is cut off |
| `Reports.MovementsAreLines` | platform/services/ledger/internal/store/store.go:452-484 | those are exactly the lines of the journal on the account in the period |
| `Reports.ClosingIsTheFigure` | platform/services/ledger/internal/store/store.go:391-503 | an untruncated ledger closes on the account's trial balance figure up to the same date |
| `Reports.PeriodsChain` | platform/services/ledger/internal/store/store.go:465-500 | one period closes where the next opens |
| `Reports.TruncatedClosing` | platform/services/ledger/cmd/ledgerd/main.go:361-392 | a truncated page closes short by exactly the rows it left out |
| `Money.PricedLine` | platform/packages/money/money.go:65-98 | a priced line: gross is net and tax, neither negative, the given side untouched, the tax within half a minor unit of exact |
| `Money.PricedIff` | platform/packages/money/money.go:17-84 | a line is priced exactly when its currency is one of five, its quantity is at least one, its rate from 0 to 100 000 and its discount between nothing and what it comes to; otherwise the first of these that fails is the error |
| `Money.Rounded` | platform/packages/money/money.go:122-138 | half up: the nearest quotient, ties upward |
| `Money.RoundsAwayFromZero` | platform/packages/money/money.go:122-138 | and away from zero for either sign |
| `Money.Total` | platform/packages/money/money.go:103-117 | the sums of the lines, or which of the two refusals |
| `Money.TotalRounding` | platform/packages/money/money.go:100-117 | totals add up, and their error is at most half a minor unit a line |
| `Money.ExclusiveThenInclusive` | platform/packages/money/money.go:65-98 | exclusive pricing and then inclusive pricing of its gross give back the same figures, for every line and rate |
| `Money.InclusiveThenExclusive` | platform/packages/money/money.go:65-98 | the other way drifts by at most one minor unit and one more for each full 200% of tax |
| `Money.DriftIsReached` | platform/packages/money/money.go:65-98 | a drift that large happens |
| `Money.NoDriftIff` | platform/packages/money/money.go:65-98 | no drift exactly when some net amount grosses up to the price |
| `Money.NoDriftExactly` | platform/packages/money/money.go:65-138 | that is, when the price lies within half the basis of a whole number of net units: a test on the remainder of gross times basis |
| `Money.WordsAgreeIff` | platform/packages/money/money.go:65-138 | 64-bit arithmetic gives the unbounded answer, for every price and rate, exactly when a negative total wraps to one that is refused too, or the total is a word and every figure in its pricing fits or its overflow cancels |
| `Money.PriceAgrees` | platform/packages/money/money.go:65-138 | and whenever they fit, at odd rates too |
| `Money.WordsAgreeUpTo` | platform/packages/money/money.go:65-138 | so for every line total up to 92 233 720 368 547 |
| `Money.WordsDisagreeBeyond` | platform/packages/money/money.go:65-138 | and not for one more |
| `Money.OddRateCoincidence` | platform/packages/money/money.go:65-138 | at an odd rate an overflow can cancel out |
| `Layering.TurnRound` | platform/services/dashboard/web/src/layout.ts:22-27 | the loop that builds the incoming edges, ignoring edges with an unknown end |
| `Layering.IncomingIsEdges` | platform/services/dashboard/web/src/layout.ts:22-27 | a parent is exactly the from of an edge between two nodes that are there |
| `Layering.Search.DepthOf` | platform/services/dashboard/web/src/layout.ts:31-41 | the memoised recursion over the shared maps computes the specified search, and terminates on any graph |
| `Layering.Search.DepthOfAll` | platform/services/dashboard/web/src/layout.ts:42 | one search after another |
| `Layering.DepthIsLongestWalk` | platform/services/dashboard/web/src/layout.ts:29-42 | without cycles a depth is the length of the longest walk from a source |
| `Layering.EdgesGoDownIff` | platform/services/dashboard/web/src/layout.ts:29-42 | every edge goes strictly down exactly when there is no cycle |
| `Layering.TiersAreContiguous` | platform/services/dashboard/web/src/layout.ts:29-48 | above an occupied tier every tier is occupied |
| `Layering.EveryNodeHasADepth` | platform/services/dashboard/web/src/layout.ts:29-48 | cycles or not, every node gets a depth |
| `Drawing.ByTier` | platform/services/dashboard/web/src/layout.ts:44-48 | nodes grouped by depth in order |
| `Drawing.Layout` | platform/services/dashboard/web/src/layout.ts:21-73 | the whole layout, as specified for its nodes and edges |
| `Drawing.NothingOverlaps` | platform/services/dashboard/web/src/layout.ts:50-70 | no two boxes overlap, on any graph |
| `Drawing.RowIsCentred` | platform/services/dashboard/web/src/layout.ts:63-67 | a row is centred and its boxes stand a gap apart |
| `Drawing.WhereEverythingGoes` | platform/services/dashboard/web/src/layout.ts:44-73 | on any graph: every node on the row of its depth, rows 186 apart from 92 down, each tier one such row, the height by the number of tiers and the width the least that holds the fullest, or what was asked |
| `Drawing.EveryNodeIsPlaced` | platform/services/dashboard/web/src/layout.ts:44-70 | every node is placed as often as it is listed |
| `Drawing.EverythingFitsAcross` | platform/services/dashboard/web/src/layout.ts:50-68 | every box is inside the width with a gap at both sides |
| `Layering.DepthsStep` | platform/services/dashboard/web/src/layout.ts:29-42 | on any graph: depth 0 is for the nodes nothing points at, and a depth of 2 or more stands on one less |
| `Drawing.FitsDownIff` | platform/services/dashboard/web/src/layout.ts:21-73 | on any graph: every box is inside the height exactly when there are no nodes or nothing points at one of them |
| `Drawing.AcyclicIsDrawnWell` | platform/services/dashboard/web/src/layout.ts:21-73 | so a graph without cycles is drawn whole, every edge down in depth and down the canvas, with or without edges |
| `Drawing.CycleFallsOff` | platform/services/dashboard/web/src/layout.ts:31-72 | two nodes that point at each other are put on tiers 2 and 1 and one falls off |
| `Numbering.ParseFormat` | platform/services/invoicing/internal/numbering/numbering.go:26-56 | a number reads back as its year, normalised code and sequence exactly when the code has no hyphen |
| `Numbering.ParseReads` | platform/services/invoicing/internal/numbering/numbering.go:43-56 | any text is read exactly when it is three parts between two hyphens and the outer two are read as numbers |
| `Numbering.ScanReads` | platform/services/invoicing/internal/numbering/numbering.go:49-54 | blanks, at most one sign and digits are read as that number, whatever follows, as long as it is a 64-bit word |
| `Numbering.FormatIsInjective` | platform/services/invoicing/internal/numbering/numbering.go:26-41 | different parts never make the same number, hyphens or not |
| `Numbering.DecimalReadsBack` | platform/services/invoicing/internal/numbering/numbering.go:40-52 | decimal digits read back |
| `Numbering.FormatSays` | platform/services/invoicing/internal/numbering/numbering.go:26-41 | a number is made exactly of a code that is not all space, a year from 2000 to 9999 and a sequence from 1 on, and of the code in capitals without the space around it; otherwise the first of these that fails |
| `Documents.Build` | platform/services/invoicing/cmd/invoicingd/main.go:255-304 | the building loop: built exactly when every line is right, each line kept as asked for with its gross; otherwise the first line that is wrong and the first thing wrong with it |
| `Documents.BuiltIsSound` | platform/services/invoicing/cmd/invoicingd/main.go:255-304 | a document is built exactly when every line passes, and its totals are its line sums and add up |
| `Documents.Credit` | platform/services/invoicing/cmd/invoicingd/main.go:404-416 | the loop that credits a whole document: as many given back at the same price and rate, and every amount negated |
| `Documents.CreditCancels` | platform/services/invoicing/cmd/invoicingd/main.go:404-416 | a document and its whole credit come to nothing, on their faces and over their lines |
| `Invoicing.NumbersHaveNoGaps` | platform/services/invoicing/internal/store/store.go:119-234 | over any interleaving of issues with rollbacks anywhere and repeats: each year's committed documents are numbered 1, 2, 3 and on in commit order, and the counter is the next |
| `Invoicing.NothingTwice` | platform/services/invoicing/internal/store/store.go:135-234 | one document a key, one correction a document, no two of one number |
| `Invoicing.NumberIsFree` | platform/services/invoicing/internal/store/store.go:171-195 | the number a transaction holds is no committed document's |
| `Invoicing.SomebodyCanMove` | platform/services/invoicing/internal/store/store.go:119-234 | waiting for counters and keys never closes a circle |
| `Invoicing.OthersOnlyDelay` | platform/services/invoicing/internal/store/store.go:119-234 | whatever else runs, a transaction is refused and goes on exactly as it would alone; others only make it wait |
| `Invoicing.DocumentsAddUp` | platform/services/invoicing/cmd/invoicingd/main.go:250-347 | every stored document has lines that add up, totals that are their sums, and the number its parts make |
| `Invoicing.PointersPair` | platform/services/invoicing/internal/store/store.go:209-218 | a document is marked corrected exactly when a credit note names it, and no credit note is corrected |
| `Invoicing.WholeCreditCancels` | platform/services/invoicing/cmd/invoicingd/main.go:349-425 | a stored whole credit and its original come to nothing |
| `InvoiceStore.Store.NextNumber` | platform/services/invoicing/internal/store/store.go:119-133 | the counter statement in place |
| `InvoiceStore.Store.Issue` | platform/services/invoicing/internal/store/store.go:135-234 | Issue in place: repeat, each failure undoing the counter, success with pointer and counter |
| `InvoiceStore.IssueSays` | platform/services/invoicing/internal/store/store.go:135-234 | what that comes to: the document the key already made; one of three refusals with nothing changed; or the document as asked for under the next number of its year, the counter one further and its id at what it corrects |
| `InvoiceStore.Store.PointOriginal` | platform/services/invoicing/internal/store/store.go:209-218 | the update of the original |
| `InvoiceStore.Store.Prepare` | platform/services/invoicing/cmd/invoicingd/main.go:201-416 | from request to document, with the refusals |
| `InvoiceStore.PreparedSays` | platform/services/invoicing/cmd/invoicingd/main.go:201-416 | a sale is of lines that are all right and no credit note; a correction names a document neither a credit note nor corrected, and credits all of it or lines of no more than it came to; everything else is refused |
| `InvoiceStore.IssueIsRun` | platform/services/invoicing/internal/store/store.go:135-234 | each call is a run of the interleaved model |
| `InvoiceStore.IssueAgain` | platform/services/invoicing/internal/store/store.go:154-169 | the same key again answers with the same document and takes no number |
| `InvoiceStore.CanAlwaysIssue` | platform/services/invoicing/internal/store/store.go:119-234 | from every reachable state, whoever holds a counter and however they end, the next document can be issued, numbered one more than its year has |
| `Calendar.AddingMovesOn` | platform/services/invoicing/cmd/invoicingd/main.go:679-684 | a month on is the length of the month one is in, a year on 365 or 366 days: always later |
| `Calendar.EndOfJanuary` | platform/services/invoicing/cmd/invoicingd/main.go:679-684 | from the 31st of January the next renewal is in March |
| `Billing.NextRenewalIs` | platform/services/invoicing/cmd/invoicingd/main.go:679-684 | an annual plan renews on the same day a year on, the 29th of February on the 1st of March; another a month on, running over into the next where the month is too short |
| `Billing.OneInvoicePerRenewal` | platform/services/invoicing/cmd/invoicingd/main.go:628-734 | over cycles run again, dying anywhere and side by side, and merchants issuing under any keys: no tenant has two subscription invoices for one renewal date |
| `Billing.KeysTellDatesApart` | platform/services/invoicing/cmd/invoicingd/main.go:712-714 | different renewal dates have different keys |
| `Billing.InvoicesAreForWhatWasDue` | platform/services/invoicing/cmd/invoicingd/main.go:628-734 | over every run: a subscription invoice is for a renewal date that had come, of a row read then and not cancelled, and for what it then cost |
| `Billing.NothingPassesUnbilledIff` | platform/services/invoicing/cmd/invoicingd/main.go:644-734 | a renewal that costs something is moved on from only with a document under its key, and that is the subscription invoice exactly when no document of the merchant's has the key |
| `Billing.NothingPassesUnbilled` | platform/services/invoicing/cmd/invoicingd/main.go:644-734 | so, where merchants keep off keys that begin as the cycle's do, only once its invoice is there |
| `Billing.TakenKeyPassesUnbilled` | platform/services/invoicing/cmd/invoicingd/main.go:227-734 | a merchant's document under billing:2026-03-01 is taken for the invoice, and the renewal passes without one |
| `Billing.RenewalsMoveOn` | platform/services/invoicing/cmd/invoicingd/main.go:679-684 | renewal dates are at least 28 days apart |
| `Billing.CyclesCatchUp` | platform/services/invoicing/cmd/invoicingd/main.go:628-734 | one cycle at a time on a plan that stands, whatever fails: the invoices are those of the renewal dates in order, once each, and the subscription stands at the first not completed |
| `Billing.CycleSays` | platform/services/invoicing/cmd/invoicingd/main.go:643-734 | over what a cycle read: each tenant that gets all the way is moved on to its next renewal and no other; each renewal that costs something has its document unless billing failed before it; who was not read is left alone |
| `Billing.ChangeSays` | platform/services/invoicing/internal/store/store.go:402-424 | changing a plan keeps its renewal date; uncancelled it goes on or is taken up again, cancelled it is to end on that date |
| `Billing.CancelledIsBilledOnceMore` | platform/services/invoicing/cmd/invoicingd/main.go:643-734 | and the cycle that comes to that date invoices one more renewal, if it costs anything, before it ends the subscription |
| `Billing.CancelledStaysOut` | platform/services/invoicing/internal/store/store.go:441-473 | after which, until it is changed, no run invoices it or touches its row |
| `Billing.SoloRunsChain` | platform/services/invoicing/cmd/invoicingd/main.go:592-734 | while no two cycles have a tenant in hand at once, whatever plans change, end and are taken up again: every renewal moved on from is the one that came next |
| `Billing.SoloPassesInOrder` | platform/services/invoicing/cmd/invoicingd/main.go:592-734 | so they come in order, at least 28 days apart |
| `Billing.SoloNeverTurnsBack` | platform/services/invoicing/internal/store/store.go:461-473 | and no step turns a renewal date back |
| `Billing.TurnsBackIff` | platform/services/invoicing/internal/store/store.go:461-473 | in any state, of all steps one turns a date back exactly when it moves on from a renewal whose next is already behind |
| `Billing.StaleCycleTurnsBack` | platform/services/invoicing/internal/store/store.go:461-473 | a cycle that read the row before two others billed it puts the renewal date back |
| `Billing.BillOneIsRun` | platform/services/invoicing/cmd/invoicingd/main.go:692-734 | billing one tenant is a run of the model |
| `Billing.Biller.AdvancePeriod` | platform/services/invoicing/internal/store/store.go:461-473 | the row as the statement leaves it: the new date, ended when its day has come, all else as it was |
| `Billing.Biller.BillTenant` | platform/services/invoicing/cmd/invoicingd/main.go:692-734 | issue, then advance: one document under the key unless the key is taken, and the renewal date moved on only when both went through |
| `Billing.Biller.RunBillingCycle` | platform/services/invoicing/cmd/invoicingd/main.go:643-663 | the loop over what was due; issued is how many that cost something went all the way, skipped the rest |
| `Inventory.RunKeepsInv` | platform/services/inventory/internal/store/store.go:118-287 | after any run every level is the sum of the item's moves, what is held is never negative, an announced item is low and no key is applied twice |
| `Inventory.OnHandIsAdjustedLessSold` | platform/services/inventory/internal/store/store.go:118-287 | after any run of positive moves what is on hand is the adjustments less everything sold, held for it or not |
| `Inventory.MoveByKind` | platform/services/inventory/internal/store/store.go:173-223 | what an applied move does: an adjustment to the shelf alone; reserving takes from what is available and releasing gives it back, the shelf as it was; a sale takes from the shelf, from what is held or from what is available; no other item changes |
| `Inventory.AppliedIff` | platform/services/inventory/internal/store/store.go:173-223 | a move is applied exactly when both figures stay words and no less than nothing is held; otherwise which refusal, with nothing changed |
| `Inventory.WarningsAreEdges` | platform/services/inventory/internal/store/store.go:225-268 | between two warnings about an item lies a recovery or a change of threshold |
| `Inventory.LowMeansWarned` | platform/services/inventory/internal/store/store.go:225-268 | after a move an item stands warned exactly when it has a threshold and is no further than it |
| `Inventory.EveryMoveIsTold` | platform/services/inventory/internal/store/store.go:225-243 | every move is announced, in order, with the level it left |
| `Inventory.RepeatIsHarmless` | platform/services/inventory/internal/store/store.go:147-168 | a move sent again, after whatever else, changes nothing, sends nothing and is answered with the level as it then stands |
| `Inventory.UsedKeyChangesNothing` | platform/services/inventory/internal/store/store.go:147-168 | any move under a key that was used changes nothing and is answered with the row of the item it names |
| `Inventory.RepeatAgreesIff` | platform/services/inventory/internal/store/store.go:147-168 | and that is the answer of the first time exactly when the moves since came to nothing on the shelf and in what is held and the threshold is back where it was |
| `Inventory.RepeatMayDiffer` | platform/services/inventory/internal/store/store.go:155-162 | five in under a key, two more in, and the repeat is answered with seven |
| `Inventory.ReservedIsEveryReference` | platform/services/inventory/internal/store/store.go:273-287 | what is reserved is the sum of what every reference holds |
| `Inventory.ReferencesMayBorrow` | platform/services/inventory/internal/store/store.go:196-287 | one reference can give back what another holds |
| `Inventory.NothingBorrowedIff` | platform/services/inventory/internal/store/store.go:173-287 | an accepted release or sale leaves its reference with no less than nothing exactly when it is of no more than ReservedFor gives, and leaves every other reference alone |
| `Inventory.NobodyEverBorrowsIff` | platform/services/inventory/internal/store/store.go:173-287 | over every run: no reference ever gives back what another holds exactly when every accepted release and sale was within its own |
| `Inventory.Stock.ApplyMove` | platform/services/inventory/internal/store/store.go:142-271 | Apply in place, with its refusals rolled back |
| `Inventory.Stock.Changes` | platform/services/inventory/internal/store/store.go:173-191 | what each kind of move does to the two counters, sign by sign, in 32 bits |
| `Inventory.NegationWraps` | platform/services/inventory/internal/store/store.go:173-191 | negating the least 32-bit figure gives itself |
| `Inventory.Stock.ChangeThreshold` | platform/services/inventory/internal/store/store.go:118-130 | SetThreshold in place |
| `Inventory.Stock.ReservedFor` | platform/services/inventory/internal/store/store.go:273-287 | the sum over the moves of one reference |
| `PageToken.Base64ReadsBack` | platform/services/catalog/cmd/catalogd/page.go:21-30 | decoding undoes encoding for every byte string |
| `PageToken.UuidReadsBack` | platform/services/catalog/cmd/catalogd/page.go:37-41 | the text of an id parses back and holds no separator |
| `PageToken.TokenReadsBack` | platform/services/catalog/cmd/catalogd/page.go:21-43 | a token reads back as its key, whatever bytes the name holds |
| `Catalog.Query` | platform/services/catalog/internal/store/store.go:195-204 | the first rows beyond the cursor in order of name and id |
| `Catalog.KeyOrder` | platform/services/catalog/internal/store/store.go:195-204 | the order is that of names byte by byte and then of ids |
| `Catalog.ListItems` | platform/services/catalog/cmd/catalogd/main.go:218-270 | a page of as many as asked for, 200 if not and 500 at most, and the token of its last row exactly when there is more; no page for a token that does not decode |
| `Catalog.WalkIsInOrder` | platform/services/catalog/cmd/catalogd/main.go:218-270 | the rows of a walk are strictly in order, whatever changes between pages |
| `Catalog.WalkReturnsExactlyOnce` | platform/services/catalog/cmd/catalogd/main.go:218-270 | a walk to the end returns every matching item that stayed as it was exactly once, as long as no row has the key that stands for no cursor |
| `Catalog.WalkEnds` | platform/services/catalog/cmd/catalogd/main.go:253-265 | only so many pages for so many keys |
| `Catalog.NamelessRepeats` | platform/services/catalog/internal/store/store.go:195-198 | an item with no name and the zero id would start the walk again |
| `Analytics.Fold` | platform/services/analytics/cmd/analyticsd/main.go:288-296 | the folding loop |
| `Analytics.Break` | platform/services/analytics/cmd/analyticsd/main.go:267-313 | exactly the limit kept where there are more and all otherwise, the remainder as one, and their shares, none where there is nothing positive to share |
| `Analytics.PartsConserve` | platform/services/analytics/cmd/analyticsd/main.go:281-297 | the parts have the gross and the orders of all the rows |
| `Analytics.ShareIsClose` | platform/services/analytics/cmd/analyticsd/main.go:301-305 | each share is the exact one cut off toward nothing |
| `Analytics.SharesAddUp` | platform/services/analytics/cmd/analyticsd/main.go:298-311 | the shares of k parts come within k basis points of the whole, and never above it when no part is negative |
| `Analytics.SharesExactly` | platform/services/analytics/cmd/analyticsd/main.go:298-311 | what they are short is what the cutting left over, so they pass the whole exactly when that comes to less than nothing |
| `Analytics.NegativePartsOverrun` | platform/services/analytics/cmd/analyticsd/main.go:298-311 | with negative parts they can pass it |

## Left out

- Tenants: each model is one tenant's rows, except billing; the tenant column is in every key and every query.
- Handlers, transports, authentication, JSON, logging and the clients of the database, the bus and the stores of files and analytics.
- Concurrent posting: two Posts of one event are ordered by the unique index the insert waits on, so Post is one step; only the stale read of Reverse is modelled, by how much of the journal it saw.
- The check of a correction outside the issuing transaction: in `Invoicing` it is a read at the start and the unique index decides; what a caller sees of the loser's error is not modelled.
- Bounds on partial credit notes: only the one comparison the code makes is in `Invoicing.Prepared`.
- Ordering by key across failed drains: a row put off lets later ones overtake it, and no order is claimed.
- The client of the bus beyond its offsets; that a batch comes back after a failure is an assumption on the poll, stated at `EventPath.Exec`.
- The events that bookings and subscriptions announce, and notification: the rows are not modelled, the announcements of kitchen and inventory are.
- Time zones and daylight saving: what instant a clock shows on a date is an arbitrary function in `Slots`, and `Calendar` is in UTC.
- Collations: names are compared byte by byte in `Catalog`; any total order would do.
- Spellings of an id other than the canonical 36 characters, and strict base64, in `PageToken`.
- Letters outside ASCII in merchant codes.
- Overflow of 64-bit sums in the ledger, documents, breakdowns and `Money.Total`; the width is modelled in line pricing and in stock levels.
- JSON that does not decode, and the currency of single tenders, which the posting rules ignore.
- The currency label of a trial balance and the names of accounts; the order accounts are listed in is the order they were added.
- How a tier is ordered and labelled: `Drawing` takes any reordering.
- The limit of 500 subscriptions a cycle.
- Kitchen stations and routes beyond what the printer looks up; resources' opening hours beyond the windows.
- Media, identity, entitlement, audit and cluster services: clients and phrasing around library calls.
- Billing.OneInvoicePerRenewal: issuing is one step there, justified by `Invoicing.NothingTwice`.
- Billing.CyclesCatchUp: on a plan that stands; `Billing.SoloRunsChain` is the statement with plans changed and cancelled in between.
- EventPath.BackoffBounded: over unbounded integers; the statement's power is a double, which overflows at the 1024th attempt.
- Inventory.EveryMoveIsTold: the announcements are in the order the moves commit; the outbox orders what is waiting by when its transaction began.
- Kitchen.DeadlockIsReached: an UPDATE of many rows takes their locks in whatever order it comes to them; that the database ends a deadlock by aborting one transaction is a step any transaction may take.
