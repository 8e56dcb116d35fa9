# Verification model: PDF to synchronised audio, and what it charges

This project models, in Dafny 4.11, the three cores of a backend that turns the
text of a PDF into audio with one cue per word, and charges for it.

- **The conversion pipeline as a chain of exact transformations.** Lines of a page
  become its text, pages become words, spoken forms, sentences and SSML segments
  under a byte limit, segments become parts, and parts become MP3 frames, WebVTT
  cues and a manifest. Nothing is lost, doubled or misnumbered from the first to
  the last of them: `Delivery.FilesAreTheDocument` reads the files of all the parts
  back into the visible text of the document, and `Preparation.ReadyIsTheDocument`
  proves that of every ready conversion of a run and the pages it was launched on.
- **The money and conversion protocols as interleaved steps.** Every repository
  method or transaction is one atomic step on the tables. A run is any sequence of
  steps by any workers, and invariants are proved of every reachable state. The use
  cases are methods on classes that hold the tables as fields; they keep values read
  earlier while `others`, an arbitrary list of foreign steps, is committed between
  two of their own steps. The ghost field `history` ties the fields to the run, so
  that a use case is proved to take only steps the run theorems speak of.
- **Text recovery.** Batched character recognition, tables and columns, setting
  lines aside, joining words cut at line ends, Roman numerals.

Text is a sequence of UTF-16 code units, as the program holds it; sizes are those of
its UTF-8 encoding. Times, edges and durations are exact reals with an explicit
rounding (halves go up, as `Math.round` does). Units, characters and prices are
unbounded integers; the only width the code depends on, the 32-bit price, is a
constraint on the catalogue.

## Files

| file | what it holds |
|---|---|
| `Wrappers`, `Numbers`, `Sums`, `Selections`, `Words` | results, minimum and maximum, sums over rows, what a filter keeps, text |
| `Allocation`, `UnitsLedger`, `LedgerInvariants`, `LedgerEffects`, `BillingLedger` | the units ledger: debits, refunds, grants, what each does to the balances, and the class of its tables |
| `Settlement`, `PaymentState`, `PaymentInvariants`, `PaymentProperties`, `PaymentWorkers` | payments: the decision table, atomic steps, invariants, theorems on runs, the paths that race |
| `ConversionState`, `ConversionInvariants`, `ConversionProperties`, `ConversionWorkers` | conversions: atomic steps, invariants, theorems on runs, the workers |
| `Encoding`, `Tokenizer`, `Pronouncing`, `PronouncingRules`, `Segmenter`, `SsmlReader` | from page texts to SSML segments, and the SSML read back |
| `PartPlan`, `Pipeline`, `PartTimeline`, `Manifest` | parts, positions in the book, word times, the manifest |
| `WebVtt`, `Mp3`, `Delivery` | the files of a part, and the whole chain read back |
| `Preparation` | starting and preparing across conversions and document |
| `Deviations` | inputs and runs on which the code departs from its description |
| `DocumentText`, `Ocr`, `Layout`, `LayoutRules`, `Cleaning`, `PageAssembly`, `Roman` | corrections and revisions, recognition, reading order, setting aside, page text, numerals |

## Where the code decides against its own description

- `src/modules/payment/domain/value-objects/payment-status.vo.ts:5-7` lists the moves
  of a payment without `expired` to `amount_mismatch`; the code makes it
  (`PaymentProperties.ExpiredCanMismatch`). The model follows the code.
- A failed conversion is not always refunded. The refund is skipped when what was
  consumed reaches what was reserved, and consumed characters count a separator where
  the billed text had a line break. `ConversionProperties.FailureCharge` gives the
  exact condition, `DocumentText.ConsumedAgainstReserved` says exactly when more is
  consumed than reserved, and `Deviations.FailedNotRefunded` is a run of it.
- A segment may exceed 4800 bytes: a run of groups of digits of any length is one
  spoken form. It then holds that one word and nothing else. The limit holds for all
  segments if and only if every spoken form is within 4768 bytes
  (`Segmenter.WithinIff`); `Deviations.SegmentOverLimit` is a page where it does not.
- A segment can gain its audio after its conversion has failed
  (`Deviations.AudioAfterFailureReached`); its charge does not move.
- A conversion can be `synthesized` with every part assembled and not `ready`. The
  sweep schedules nothing for it exactly then (`ConversionProperties.StuckIff`), and
  `Deviations.StuckFromScratch` is a run to that state.
- `mp3DurationMs` counts a last frame that is cut short, `mp3AudioFrames` drops it
  (`Mp3.CutFrameIsCounted`).
- Column restoration doubles a segment of no width that lies on the gutter.
  `Layout.PermutationIff` says it is a permutation exactly when there is none, and
  `Deviations.PageNotPermuted` is a page with one.

## Model

| member | source | states |
|---|---|---|
| Allocation.Allocate | src/modules/billing/domain/services/allocation.ts:40-65 | A debit succeeds exactly when the usable balances suffice, and takes free units, then the pass, then credits; otherwise the shortfall names what was available |
| Allocation.TakenIsGreedy | src/modules/billing/domain/services/allocation.ts:31-65 | The split is greedy in the debit order: a source is touched only when all earlier usable ones are spent, and the total is the price |
| Allocation.TakenWithin | src/modules/billing/domain/services/allocation.ts:31-65 | No source gives more than it has, and free units pay only for the tier that may use them |
| Allocation.SplitRefund | src/modules/billing/domain/services/allocation.ts:74-87 | A refund is given back in the reverse order |
| Allocation.RefundUndoesDebit | src/modules/billing/domain/services/allocation.ts:74-87 | What remains of a debit after a refund is what the smaller debit would have taken from the same balances |
| Allocation.RefundedTotal | src/modules/billing/domain/services/allocation.ts:68-87 | A refund of at most what was reserved gives back exactly that many units |
| BillingLedger.BillingTables.LockBalances | src/modules/billing/infrastructure/persistence/units-ledger.drizzle-repository.ts:67-113 | Locking creates missing rows at zero and nothing else, and reads the month's use, the active pass with what is left on it, and the wallet |
| BillingLedger.BillingTables.ApplyToSources | src/modules/billing/infrastructure/persistence/units-ledger.drizzle-repository.ts:232-273 | A movement changes the month's counter, the reservation's own pass and the wallet with its journal entry, each by its own share; no clamp changes a value |
| BillingLedger.BillingTables.RecordReservation | src/modules/billing/infrastructure/persistence/units-ledger.drizzle-repository.ts:115-146 | A reservation is added together with its debit |
| BillingLedger.BillingTables.Reserve | src/modules/billing/application/use-cases/reserve-quota.use-case.ts:45-89 | Reserving is all or nothing and idempotent: granted exactly when what is left of the month, the pass and the wallet, in units reserved and not given back, covers the price; then each of them falls by its share, in that order, and nothing else changes |
| BillingLedger.BillingTables.RefundReservation | src/modules/billing/application/use-cases/refund-quota.use-case.ts:25-37 | A refund is given exactly when the reservation exists, was never refunded and the characters are positive, and at most once; it gives back what the smaller reservation would not have taken, each source its share |
| BillingLedger.BillingTables.LockForPurchase | src/modules/billing/infrastructure/persistence/purchase-ledger.drizzle-repository.ts:57-74 | The lock creates the wallet if it is missing and returns the end of the user's last pass |
| BillingLedger.BillingTables.RecordPurchase | src/modules/billing/infrastructure/persistence/purchase-ledger.drizzle-repository.ts:76-134 | A purchase is recorded once per reference, with its pass or its credits; a second one changes nothing |
| BillingLedger.BillingTables.GrantOffer | src/modules/billing/application/use-cases/grant-offer.use-case.ts:44-78 | A grant, whatever others commit before its lock: replayed, refused for another user or offer, or recorded. What is recorded is the offer: its code, price and units, in the wallet and the journal, or in a new pass of exactly its days that starts at once or at the end of the last one |
| LedgerEffects.ReserveDoes | src/modules/billing/application/use-cases/reserve-quota.use-case.ts:45-89 | A reservation is granted if and only if the rests of month, pass and wallet, counted from the reservations and purchases themselves, cover the price |
| LedgerEffects.RefundDoes | src/modules/billing/application/use-cases/refund-quota.use-case.ts:25-37 | A refund moves every balance of the user by what is given back to it and no other balance |
| LedgerEffects.GrantDoes | src/modules/billing/application/use-cases/grant-offer.use-case.ts:44-78 | A grant is new exactly when no purchase has its reference; a replay must be of the same user and offer |
| LedgerEffects.GrantBuys | src/modules/billing/domain/services/purchase-grant.ts:30-50 | What a new purchase is worth, from the offer alone: exactly its units in the wallet and journal, or a pass of exactly its units and its number of days of 86 400 000 ms |
| UnitsLedger.ActivePass | src/modules/billing/infrastructure/persistence/units-ledger.drizzle-repository.ts:85-105 | The pass that is charged is an active one of the user's, and none of them started earlier |
| UnitsLedger.LatestPassEnd | src/modules/billing/infrastructure/persistence/purchase-ledger.drizzle-repository.ts:57-74 | The end of the last pass is an end of one of the user's passes and none is later |
| LedgerInvariants.ReserveKeepsInv | src/modules/billing/application/use-cases/reserve-quota.use-case.ts:45-89 | A reservation keeps every conservation law of the ledger |
| LedgerInvariants.RefundKeepsInv | src/modules/billing/application/use-cases/refund-quota.use-case.ts:25-37 | A refund keeps every conservation law of the ledger |
| LedgerInvariants.GrantKeepsInv | src/modules/billing/application/use-cases/grant-offer.use-case.ts:44-78 | A grant keeps every conservation law of the ledger, pass periods included |
| LedgerInvariants.GrantKeepsPeriods | src/modules/billing/domain/services/purchase-grant.ts:33-47 | Whatever the clock says, a new pass overlaps none of the user's passes |
| BillingLedger.EveryRunConserves | src/modules/billing/infrastructure/persistence/units-ledger.drizzle-repository.ts:67-273 | Over every run each free counter is what was taken minus refunded and within the monthly limit, each pass has used what it was charged and no more than it includes, each wallet is the signed sum of its journal and never negative |
| BillingLedger.AtMostOneActivePass | src/modules/billing/domain/services/purchase-grant.ts:33-47 | At any instant of any reachable state a user has at most one active pass |
| BillingLedger.ChainedPass | src/modules/billing/domain/services/purchase-grant.ts:33-47 | A pass bought during another one starts exactly at the last end |
| BillingLedger.ReplayAddsNothing | src/modules/billing/application/use-cases/grant-offer.use-case.ts:48-78 | A payment reference that was granted grants nothing again, after any later run: the same grant is returned, or a conflict for another user or offer |
| BillingLedger.DebitClampsIdle | src/modules/billing/infrastructure/persistence/units-ledger.drizzle-repository.ts:232-273 | The guards against negative counters never change a value on a debit |
| BillingLedger.RefundClampsIdle | src/modules/billing/infrastructure/persistence/units-ledger.drizzle-repository.ts:148-183 | Nor on a refund |
| Settlement.DecisionIsEvidence | src/modules/payment/domain/services/settlement.ts:36-99 | Success, mismatch and failure are each decided exactly on their evidence: our reference, the status read, and the copied amount in XAF |
| PaymentInvariants.NeverRefused | src/modules/payment/application/services/payment-settler.service.ts:143-189 | Confirming a payment that has not succeeded is never refused by the grant |
| PaymentInvariants.ApplyKeepsPayments | src/modules/payment/application/services/payment-settler.service.ts:63-171 | Every atomic step keeps payments and purchases in agreement |
| PaymentInvariants.ApplyKeepsKeys | src/modules/payment/infrastructure/persistence/payment.drizzle-repository.ts:44-119 | Every step keeps creation keys and provider references unique |
| PaymentInvariants.ApplyKeepsExternal | src/modules/payment/infrastructure/persistence/schema/payment.schema.ts:59-62 | Every step keeps external references unique, whatever their case |
| PaymentInvariants.RunKeeps | src/modules/payment/application/services/payment-settler.service.ts:63-171 | The payment invariant, ledger included, holds in every reachable state |
| PaymentProperties.SucceededIffGranted | src/modules/payment/application/services/payment-settler.service.ts:63-189 | In every interleaving a payment is succeeded exactly when one purchase exists under its id, granted once to its user for its offer, at its price and worth exactly what the offer says, after a reading with our reference, successful, of exactly the copied price |
| PaymentProperties.EveryPurchaseIsPaid | src/modules/payment/application/services/payment-settler.service.ts:143-189 | Every purchase belongs to a payment that has succeeded on such a reading |
| PaymentProperties.PaidPassIsThere | src/modules/payment/application/services/payment-settler.service.ts:143-189 | In every reachable state, who paid for a pass has it, with the units and the days of the offer |
| PaymentProperties.PassIsPaid | src/modules/payment/application/services/payment-settler.service.ts:143-189 | In every reachable state every pass was paid for by a payment that has succeeded, at its price |
| PaymentProperties.TransactionOfOne | src/modules/payment/domain/services/settlement.ts:36-40 | In every reachable state a transaction of the provider carries the reference of one payment at most |
| PaymentProperties.SucceededApart | src/modules/payment/infrastructure/persistence/schema/payment.schema.ts:59-62 | Two payments that have succeeded rest on two successful transactions with different references, neither of which could have paid for the other |
| PaymentProperties.RunMoves | src/modules/payment/domain/services/settlement.ts:36-87 | Statuses move only from pending to a conclusion and from expired to succeeded or amount_mismatch; identity, price and a reference once set never change |
| PaymentProperties.ExpiredCanMismatch | src/modules/payment/domain/services/settlement.ts:54-70 | An expired payment with our reference and another amount is flagged, by the decision and by the write |
| PaymentProperties.StaleDecision | src/modules/payment/application/services/payment-settler.service.ts:63-137 | A decision taken on an old snapshot is still justified when it is written, whatever happened since |
| PaymentWorkers.PaymentTables.InsertPayment | src/modules/payment/infrastructure/persistence/payment.drizzle-repository.ts:44-51 | Inserted exactly when its creation key and its external reference are free; a held key is reported as such, and only a key that is free lets the other constraint fail |
| PaymentWorkers.PaymentTables.AttachProviderReference | src/modules/payment/infrastructure/persistence/payment.drizzle-repository.ts:112-119 | A reference is set once, and never one that another payment of the same provider holds: a clash is reported exactly then |
| PaymentWorkers.PaymentTables.CompleteFrom | src/modules/payment/infrastructure/persistence/payment.drizzle-repository.ts:121-140 | Written exactly when the status is still the one that was read |
| PaymentWorkers.PaymentTables.ConfirmAndGrant | src/modules/payment/application/services/payment-settler.service.ts:143-189 | Success and the grant together, or nothing when the status has moved |
| PaymentWorkers.PaymentTables.SettleWithReference | src/modules/payment/application/services/payment-settler.service.ts:63-77 | From a stale snapshot and a reading: what is returned fits the decision, a conclusion is the status written with its channel, time and code, a lost race means the status had moved; a missing reference is the one that is attached, and the write fails exactly when another payment holds it |
| PaymentWorkers.PaymentTables.ApplyTransaction | src/modules/payment/application/services/payment-settler.service.ts:79-137 | Attach, then conclude, with other paths committing in between; it stops at the attachment exactly when that clashes |
| PaymentWorkers.PaymentTables.HandleNotification | src/modules/payment/application/use-cases/handle-payment-notification.use-case.ts:36-65 | A notification finds its payment by reference or, if none has it, by external reference, and otherwise writes nothing; its effect is a settlement of that payment |
| PaymentWorkers.PaymentTables.Reconcile | src/modules/payment/application/use-cases/reconcile-pending-payments.use-case.ts:65-84 | The outcome is fixed by the payment as listed, the answer of the provider and the time: expired or raced exactly after 900 000 ms without a reference, or after 86 400 000 ms with one that is still in progress at the provider; waiting before that; a conclusion is what is written, a lost race means the status had moved |
| PaymentWorkers.PaymentTables.Abandon | src/modules/payment/application/use-cases/reconcile-pending-payments.use-case.ts:65-84 | The step taken is the expiry, with its reason; it is written exactly over pending, otherwise the race is lost |
| PaymentWorkers.PaymentTables.ListPendingCreatedBefore | src/modules/payment/infrastructure/persistence/payment.drizzle-repository.ts:142-157 | The pending payments created before an instant, each once, the oldest first, up to the limit; one that is left out is no older than those listed |
| PaymentWorkers.PaymentTables.VisitAll | src/modules/payment/application/use-cases/reconcile-pending-payments.use-case.ts:42-63 | Each payment is visited once, on the snapshot of the listing, and each outcome is counted once |
| PaymentWorkers.PaymentTables.SweepPending | src/modules/payment/application/use-cases/reconcile-pending-payments.use-case.ts:42-63 | The batch is the hundred oldest pending payments older than 120 000 ms; the report counts the outcomes of their visits: each outcome fits what the provider answered and the time, and the payment showed it at the end of its visit |
| PaymentWorkers.PaymentTables.Collect | src/modules/payment/application/use-cases/initiate-payment.use-case.ts:140-176 | The step taken is fixed by the answer of the provider: its own reference attached unless one was there, nothing, or a refused number; a clash of references is reported exactly when another payment holds it |
| PaymentWorkers.PaymentTables.Replay | src/modules/payment/application/use-cases/initiate-payment.use-case.ts:123-138 | Another request under the same key is a conflict and writes nothing; the same one returns its payment, and asks the provider again exactly when it is pending, without a reference and still payable |
| PaymentWorkers.PaymentTables.Initiate | src/modules/payment/application/use-cases/initiate-payment.use-case.ts:61-116 | Creation is idempotent: the payment returned is the only one with that key, and was made for that request; the outcome and the steps are fixed by what the key, the catalogue and the provider say, a lost race included |
| ConversionInvariants.NextOk | src/modules/conversion/infrastructure/persistence/conversion.drizzle-repository.ts:257-539 | Every conditional write keeps a conversion, its segments, parts and manifest in agreement |
| ConversionInvariants.NextEvolves | src/modules/conversion/infrastructure/persistence/conversion.drizzle-repository.ts:257-539 | A step moves the status along one edge at most, and overwrites no audio, part or manifest |
| ConversionInvariants.LateAudio | src/modules/conversion/infrastructure/persistence/conversion.drizzle-repository.ts:353-382 | Audio that arrives late belongs to no part that is assembled |
| ConversionInvariants.FailKeeps | src/modules/conversion/application/use-cases/fail-conversion.use-case.ts:32-39 | Failing with its refund keeps the invariant of conversions and ledger |
| ConversionInvariants.StartKeeps | src/modules/conversion/application/use-cases/start-conversion.use-case.ts:78-119 | So does reserving with the insertion, a lost race being rolled back |
| ConversionInvariants.RunKeeps | src/modules/conversion/infrastructure/persistence/conversion.drizzle-repository.ts:188-539 | The invariant holds in every state that any run reaches |
| ConversionProperties.EveryRunIsSafe | src/modules/conversion/infrastructure/persistence/conversion.drizzle-repository.ts:384-539 | In every interleaving synthesized or ready implies that every segment has audio; ready implies that every part is assembled from exactly its segments' audio, with their words timed as measured, and that the stored manifest is the complete one |
| ConversionProperties.RunEvolves | src/modules/conversion/infrastructure/persistence/conversion.drizzle-repository.ts:257-539 | Over any run statuses follow the life cycle (nothing fails from synthesized or ready), and audio, parts and manifest once written stay |
| ConversionProperties.ReadyCoversTheBook | src/modules/conversion/application/use-cases/assemble-part.use-case.ts:45-55 | The page starts stored by the parts of a ready conversion are those of the whole book, and the word counts add up to it |
| ConversionProperties.ManifestCoversTheBook | src/modules/conversion/domain/services/conversion-manifest.ts:47-101 | The manifest of a ready conversion is that of the book: its parts in order, each at its first word and where the ones before it end, and together their page starts, words and duration are those of the whole |
| ConversionProperties.PartIsHeard | src/modules/conversion/application/use-cases/assemble-part.use-case.ts:95-132 | The words an assembled part stores are a timeline of its rows under the measured durations of its chunks |
| ConversionProperties.OneActivePerTarget | src/modules/conversion/infrastructure/persistence/conversion.drizzle-repository.ts:188-235 | At most one conversion that has not failed per document, voice and revision |
| ConversionProperties.ReachableCharge | src/modules/conversion/application/use-cases/start-conversion.use-case.ts:78-119 | Every conversion has exactly one reservation of its own id, user and characters, at its price |
| ConversionProperties.ActiveCharge | src/modules/conversion/application/use-cases/start-conversion.use-case.ts:78-119 | As long as it has not failed it is charged the full price |
| ConversionProperties.FailureCharge | src/modules/conversion/application/use-cases/fail-conversion.use-case.ts:32-39 | A failure leaves the price of what was consumed, up to what was reserved, and refunds if and only if less was consumed |
| ConversionProperties.NetCharge | src/modules/conversion/application/use-cases/fail-conversion.use-case.ts:32-39 | That charge stays for ever, however often failure is reported and whatever arrives late |
| ConversionProperties.StuckIff | src/modules/conversion/application/use-cases/reschedule-stalled-conversions.use-case.ts:32-64 | The sweep schedules nothing for a synthesized conversion exactly when all its parts are assembled |
| ConversionProperties.StuckIsReachable | src/modules/conversion/application/use-cases/assemble-part.use-case.ts:142-154 | That state is reached from every conversion being synthesized with all its audio |
| ConversionWorkers.ConversionTables.MarkPreparing | src/modules/conversion/infrastructure/persistence/conversion.drizzle-repository.ts:257-269 | Taken exactly from queued or preparing |
| ConversionWorkers.ConversionTables.CompletePreparation | src/modules/conversion/infrastructure/persistence/conversion.drizzle-repository.ts:271-322 | Rows and plan are written once, only from preparing |
| ConversionWorkers.ConversionTables.CompleteSegment | src/modules/conversion/infrastructure/persistence/conversion.drizzle-repository.ts:353-382 | Audio is written only where there is none, whatever the status |
| ConversionWorkers.ConversionTables.CompleteIfAllSegmentsSynthesized | src/modules/conversion/infrastructure/persistence/conversion.drizzle-repository.ts:384-397 | Synthesis closes exactly when it is running and no segment is pending |
| ConversionWorkers.ConversionTables.CompletePart | src/modules/conversion/infrastructure/persistence/conversion.drizzle-repository.ts:490-524 | A part is assembled once |
| ConversionWorkers.ConversionTables.MarkReadyIfAllPartsAssembled | src/modules/conversion/infrastructure/persistence/conversion.drizzle-repository.ts:526-539 | Ready exactly from synthesized with every part assembled |
| ConversionWorkers.ConversionTables.FailConversion | src/modules/conversion/application/use-cases/fail-conversion.use-case.ts:32-39 | Failure and refund in one step, exactly from a status in progress |
| ConversionWorkers.ConversionTables.StartConversion | src/modules/conversion/application/use-cases/start-conversion.use-case.ts:57-124 | Each refusal is given exactly for its reason and writes nothing; an active conversion of the same target is returned; otherwise the conversion is created with its reservation, or refused as the reservation is, or rolled back to the winner of a lost race |
| ConversionWorkers.RowsAndPlan | src/modules/conversion/application/use-cases/prepare-conversion.use-case.ts:74-97 | Rows numbered in the whole book and parts that partition them |
| Preparation.Start | src/modules/conversion/application/use-cases/start-conversion.use-case.ts:57-124 | What is reserved and the revision kept with it are those of the document at the launch |
| Preparation.LaunchedStays | src/modules/conversion/application/use-cases/prepare-conversion.use-case.ts:57-62 | They do not change while the conversion lives |
| Preparation.Prepare | src/modules/conversion/application/use-cases/prepare-conversion.use-case.ts:57-131 | Under any corrections of the document and any steps of other workers: what is written are the segments of the pages of the launch, whose count is what was reserved; otherwise the conversion fails with the first reason met (source gone or not ready, text changed, no words), is resumed exactly when it is being synthesized, or is left alone exactly when it is past preparation; every preparation in the history writes the text of its own launch, if the other workers keep to that |
| Preparation.RunKeepsText | src/modules/conversion/application/use-cases/prepare-conversion.use-case.ts:63-104 | Over every run of such preparations, the rows of every conversion that has any are the segments of the pages it was launched on |
| Preparation.ReadyIsTheDocument | src/modules/conversion/application/use-cases/assemble-part.use-case.ts:95-132 | From the launch to the files: a ready conversion and its manifest hold the page starts and the word count of the pages it was launched on, and the cue files of its stored timelines, read in order, give back their words numbered from 0 and their visible text |
| ConversionWorkers.ConversionTables.PrepareMarked | src/modules/conversion/application/use-cases/prepare-conversion.use-case.ts:63-104 | The step written last holds exactly these segments, each with its fingerprint |
| ConversionWorkers.ConversionTables.SynthesizeSegment | src/modules/conversion/application/use-cases/synthesize-segment.use-case.ts:72-111 | Whatever others do meanwhile: the outcome is fixed by the segment and the engine; a segment that is done has stored, if it had none, audio under its fingerprint with one time per word, that of the mark of the word, and the duration and cache flag of the engine; a rejection fails the conversion; the part is scheduled exactly when it is complete and synthesis is not left running with all its audio |
| ConversionWorkers.ConversionTables.AfterSegment | src/modules/conversion/application/use-cases/synthesize-segment.use-case.ts:117-123 | The part is scheduled exactly when all its segments have audio, and the synthesis is closed when none is pending in the whole conversion |
| ConversionWorkers.CollectAudio | src/modules/conversion/application/use-cases/assemble-part.use-case.ts:95-132 | The audio of the rows in order, or nothing when one is missing |
| ConversionWorkers.ConversionTables.Assemble | src/modules/conversion/application/use-cases/assemble-part.use-case.ts:95-139 | A part is assembled exactly when its audio is complete, with its words timed as measured and its page starts at their places in the book |
| ConversionWorkers.ConversionTables.Finalize | src/modules/conversion/application/use-cases/assemble-part.use-case.ts:142-154 | From synthesized with every part assembled the manifest of exactly these parts is written, then ready, if the status still allows it; from any other status nothing is written |
| ConversionWorkers.ConversionTables.AssemblePart | src/modules/conversion/application/use-cases/assemble-part.use-case.ts:76-92 | A part is done exactly when it is there and assembled or complete in an assemblable conversion; then what is stored is its segments' audio with words, durations and page starts, once, and the conversion is finalized |
| Encoding.Utf8Concat | src/modules/conversion/domain/services/ssml-segmenter.ts:230-232 | Encoded sizes add up unless a surrogate pair is split |
| Encoding.EscapedByteLength | src/modules/conversion/domain/services/ssml-segmenter.ts:66-76 | The counted size is the length of the UTF-8 encoding of the escaped text, for any code units |
| Tokenizer.SplitWords | src/modules/conversion/domain/services/ssml-segmenter.ts:113-130 | The words of all pages in order: on each page they stand at increasing places, only white space lies between them, and each ends at white space, at the end or after 200 units |
| Tokenizer.WordsAreUnique | src/modules/conversion/domain/services/ssml-segmenter.ts:113-130 | A text has only one list of words that stand so |
| Tokenizer.WordsKeepTheText | src/modules/conversion/domain/services/ssml-segmenter.ts:113-130 | The words end to end are the text without its white space, each unit once, in order |
| Tokenizer.Tokenize | src/modules/conversion/domain/services/ssml-segmenter.ts:113-130 | One token per word with its spoken form and the true size of it |
| Tokenizer.SplitSentences | src/modules/conversion/domain/services/ssml-segmenter.ts:132-145 | The loop computes the cut that `SentencesAreCut` speaks of |
| Tokenizer.SentencesAreCut | src/modules/conversion/domain/services/ssml-segmenter.ts:132-145 | Sentences are the tokens cut after each one that closes a sentence, and nowhere else |
| Pronouncing.PartsOf | src/modules/conversion/domain/services/pronunciation.ts:128-134 | A word split into leading marks, core and trailing marks |
| Pronouncing.PartsAreUnique | src/modules/conversion/domain/services/pronunciation.ts:128-134 | There is only one way to take a word apart so |
| Pronouncing.GroupedNumberLength | src/modules/conversion/domain/services/pronunciation.ts:209-223 | The loop finds the whole run of groups of three digits, never one word, and none after another small number |
| Pronouncing.Context.SpacedNumberAt | src/modules/conversion/domain/services/pronunciation.ts:290-302 | The run is written in place: all digits in the first form, the others absorbed, no other word touched |
| Pronouncing.Context.SafeAbbreviationAt | src/modules/conversion/domain/services/pronunciation.ts:317-332 | One or two words decided and marked, no other word touched |
| Pronouncing.Context.ApplyRules | src/modules/conversion/domain/services/pronunciation.ts:355-382 | The first rule in order that applies takes the word |
| Pronouncing.Pronounce | src/modules/conversion/domain/services/pronunciation.ts:365-382 | The loop that rewrites forms in place computes the readings one after the other |
| PronouncingRules.PronouncedIsRead | src/modules/conversion/domain/services/pronunciation.ts:355-382 | Every word, or run of words, is read by the first of twelve rules that applies to it, each said for itself: what it requires of the words, what is said, what each absorbed word leaves, and which forms count as abbreviations |
| PronouncingRules.RunMeans | src/modules/conversion/domain/services/pronunciation.ts:209-223 | There is one run of groups of digits at a word, as long as groups follow one another, or none |
| Pronouncing.OneFormForEachWord | src/modules/conversion/domain/services/pronunciation.ts:12-17 | One spoken form and one mark for each word, whatever the word lists |
| Pronouncing.SpacedNumberKeepsText | src/modules/conversion/domain/services/pronunciation.ts:290-302 | A grouped number is read with the digits and the punctuation that are shown |
| Pronouncing.FormsAreUnbounded | src/modules/conversion/domain/services/pronunciation.ts:209-223 | For every length there is a text whose single spoken form is that long |
| Pronouncing.TailsReadAlike | src/modules/conversion/domain/services/pronunciation.ts:365-382 | Two texts that share a tail and the word before it are read alike from there on |
| Pronouncing.NumeralIsRead | src/modules/conversion/domain/services/pronunciation.ts:384-396 | After a keyword a numeral is read as n if and only if it is the canonical form of n |
| Segmenter.SizeIsCounted | src/modules/conversion/domain/services/ssml-segmenter.ts:96-104 | The running count is the UTF-8 length of the SSML that will be emitted: frame, numbered marks, separators, escapes |
| Segmenter.SizeAppend | src/modules/conversion/domain/services/ssml-segmenter.ts:96-104 | What the count adds for further tokens is what they add to that length |
| Segmenter.PackSentences | src/modules/conversion/domain/services/ssml-segmenter.ts:193-227 | The closures that share segments, current tokens and bytes compute the packing by true sizes |
| Segmenter.GroupsAreGreedy | src/modules/conversion/domain/services/ssml-segmenter.ts:193-227 | Every segment but the last ends because the next sentence, or the next word of a sentence too long for a segment, would exceed 4800 bytes, or because it has at least 2400 bytes and ends with an anchor; and it ends at the first place where it must |
| Segmenter.PackingIsUnique | src/modules/conversion/domain/services/ssml-segmenter.ts:193-227 | There is only one such packing |
| Segmenter.BuildSsmlSegments | src/modules/conversion/domain/services/ssml-segmenter.ts:193-227 | For any pages: the segments are the greedy packing of the sentences by 4800 and 2400 bytes, their words are the words of the pages, every segment is at most 4800 bytes or holds one word, all are within 4800 bytes exactly when every spoken form is within 4768, and the characters of a segment are those of its words with separators |
| Segmenter.WithinIff | src/modules/conversion/domain/services/ssml-segmenter.ts:193-227 | Every segment is within 4800 bytes if and only if every spoken form, escaped and encoded, is within 4768 |
| Segmenter.GroupsPartition | src/modules/conversion/domain/services/ssml-segmenter.ts:193-227 | Segments are a contiguous partition of the tokens |
| Segmenter.FittingSentenceIsWhole | src/modules/conversion/domain/services/ssml-segmenter.ts:206-224 | A sentence that fits by itself is never split across segments |
| Segmenter.CharsCounted | src/modules/conversion/domain/services/ssml-segmenter.ts:172-177 | Over a book, the counted characters are those of its words and one separator between two words of a segment |
| Segmenter.Restarts | src/modules/conversion/domain/services/ssml-segmenter.ts:157-227 | After a closed segment the packing of the rest does not depend on what came before |
| Segmenter.TailsRealign | src/modules/conversion/domain/services/ssml-segmenter.ts:157-227 | Two texts that share a tail of sentences after a closed segment share all later segments, shifted in index only |
| SsmlReader.SsmlIsRead | src/modules/conversion/domain/services/ssml-segmenter.ts:151-155 | A reader of the SSML of a segment finds one mark for each word, with its number, and after it the spoken form, whatever its characters |
| SsmlReader.EveryWordIsSaid | src/modules/conversion/domain/services/ssml-segmenter.ts:193-227 | Read one after the other, the segments say the spoken form of every word of the pages, each once, in order |
| PartPlan.PlanParts | src/modules/conversion/domain/services/part-plan.ts:20-34 | Parts are a contiguous partition, each closed exactly on the segment that reaches its target |
| PartPlan.PlanIsUnique | src/modules/conversion/domain/services/part-plan.ts:20-34 | No other plan satisfies that |
| Pipeline.Position | src/modules/conversion/application/use-cases/prepare-conversion.use-case.ts:74-97 | Each segment knows its part and how many words of the book precede it |
| Pipeline.QueryIsSlice | src/modules/conversion/infrastructure/persistence/conversion.drizzle-repository.ts:439-451 | The rows of a part found by its number are exactly its slice of the book |
| Pipeline.TimelinesCoverTheBook | src/modules/conversion/application/use-cases/prepare-conversion.use-case.ts:74-97 | The words of all timelines in part order are the words of the book, each once, numbered from 0 |
| Pipeline.PageStartsOf | src/modules/conversion/application/use-cases/assemble-part.use-case.ts:45-55 | A page starts at each word whose page differs from the previous one's |
| Pipeline.PageStartsCoverTheBook | src/modules/conversion/application/use-cases/assemble-part.use-case.ts:106-139 | The parts' page starts end to end are the page starts of the whole book |
| PartTimeline.AlignTimepoints | src/modules/conversion/application/use-cases/synthesize-segment.use-case.ts:164-170 | Each word gets the time of its own mark, the last of that name, or none |
| PartTimeline.MarkNameInjective | src/modules/conversion/domain/services/ssml-segmenter.ts:53-55 | Two words of a segment never share a mark |
| PartTimeline.WordStarts | src/modules/conversion/domain/services/part-timeline.ts:26-48 | With ordered marks within the segment a marked word starts within half a millisecond of 1000 times its seconds; missing marks share the gap between their neighbours, or from 0, or up to the duration, evenly, up to half a millisecond for each rounding since the first of them |
| PartTimeline.StartsAreFair | src/modules/conversion/domain/services/part-timeline.ts:23-48 | The same of the starts the functions define, from the time points alone |
| PartTimeline.StartsNeverDecrease | src/modules/conversion/domain/services/part-timeline.ts:26-48 | Starts never go back, whatever the marks |
| PartTimeline.InterpolateBetween | src/modules/conversion/domain/services/part-timeline.ts:33-48 | An interpolated rounded start stays between its neighbours |
| PartTimeline.MarksKept | src/modules/conversion/domain/services/part-timeline.ts:26-48 | Ordered marks within the duration are kept unchanged, and what is filled in stays between them |
| PartTimeline.BuildPartTimeline | src/modules/conversion/domain/services/part-timeline.ts:55-68 | The timeline of some segments: every word of each at its place, shifted by the durations of the earlier segments, and each ends where the next one starts or its segment ends |
| PartTimeline.TimelineOrdered | src/modules/conversion/domain/services/part-timeline.ts:55-68 | Across a part every word lies in its segment's span and ends no later than the next one starts |
| PartTimeline.TimelineIsPlaced | src/modules/conversion/domain/services/part-timeline.ts:55-68 | Times apart, a timeline is the part's words, each once, at its place in the book |
| Manifest.BuildManifest | src/modules/conversion/domain/services/conversion-manifest.ts:47-101 | The running start time is known for a part as long as all earlier ones are assembled |
| Manifest.CompleteManifestTiles | src/modules/conversion/domain/services/conversion-manifest.ts:47-101 | With every part assembled, the parts tile the book from 0 to its duration |
| Manifest.StartsKnown | src/modules/conversion/domain/services/conversion-manifest.ts:47-101 | A part's start is given exactly when it and all before it are assembled |
| WebVtt.PassesEscapeEach | src/modules/conversion/domain/services/webvtt.ts:19-21 | Three successive replacements escape each unit once, and no escape is escaped again |
| WebVtt.PayloadIsSafe | src/modules/conversion/domain/services/webvtt.ts:19-21 | No payload contains an angle bracket, hence no arrow, nor a line break its word did not have |
| WebVtt.TimestampParses | src/modules/conversion/domain/services/webvtt.ts:10-16 | A parser of timestamps (section 4.1 of the W3C WebVTT specification) reads back the milliseconds |
| WebVtt.LegibleReadsBack | src/modules/conversion/domain/services/webvtt.ts:19-34 | The lines of a payload, collected up to a blank line or an arrow, give back a text of any number of lines, if none is blank and it has no carriage return |
| WebVtt.IllegibleIsLost | src/modules/conversion/domain/services/webvtt.ts:19-34 | Of any other text, whatever follows it, another text is read |
| WebVtt.WebVttRoundTrip | src/modules/conversion/domain/services/webvtt.ts:28-34 | A parser that goes line by line (section 6.1 of the W3C WebVTT specification: blank lines between cues, a timing line known by its arrow, a payload up to a blank line) recovers every index, start, end (at least start + 1) and text if and only if every text is legible, for times that are not negative |
| Mp3.Mp3DurationMs | src/modules/conversion/infrastructure/tts/mp3.ts:58-68 | The scan terminates and adds the seconds of the headers it meets |
| Mp3.Mp3AudioFrames | src/modules/conversion/infrastructure/tts/mp3.ts:75-84 | The scan terminates and keeps the bytes of the whole frames after the tag |
| Mp3.LongerThanHeader | src/modules/conversion/infrastructure/tts/mp3.ts:27-48 | A frame that is accepted is longer than its header (section 2.4.2.3 of ISO/IEC 11172-3), for every bitrate and rate of the tables |
| Mp3.ExtractIsChain | src/modules/conversion/infrastructure/tts/mp3.ts:75-84 | What is extracted is a chain of whole frames, from any bytes |
| Mp3.ChainIsKept | src/modules/conversion/infrastructure/tts/mp3.ts:75-84 | A chain of frames is extracted unchanged |
| Mp3.ChainConcat | src/modules/conversion/infrastructure/tts/mp3-audio-assembler.adapter.ts:18-27 | Chains one after the other are a chain, with the frames of the one and then of the other |
| Mp3.FrameFillsItsTime | src/modules/conversion/infrastructure/tts/mp3.ts:27-48 | A frame holds what its bitrate gives in the time its samples last, in whole bytes, and its padding |
| Mp3.Id3v2IsTag | src/modules/conversion/infrastructure/tts/mp3.ts:50-56 | A tag of ID3v2 (section 3.1 of the ID3v2.3 specification) is skipped whole, its size read seven bits at a time |
| Mp3.HeldIsExtracted | src/modules/conversion/infrastructure/tts/mp3.ts:75-84 | Of a chunk that holds a chain behind a tag, or before bytes that start no frame, exactly the chain is kept |
| Mp3.Join | src/modules/conversion/infrastructure/tts/mp3-audio-assembler.adapter.ts:18-27 | The buffer holds the frames of every chunk, in order, and each duration is its chunk's; of chunks that hold chains within tags and other bytes, the chains end to end |
| Mp3.JoinKeepsFrames | src/modules/conversion/infrastructure/tts/mp3-audio-assembler.adapter.ts:18-27 | The joined audio is a chain whose frames are the chunks' frames in order, and extracting from it changes nothing |
| Mp3.JoinIsHeld | src/modules/conversion/infrastructure/tts/mp3-audio-assembler.adapter.ts:18-27 | The joined audio is what the chunks hold, end to end, whatever stands around it, and each duration is that of its frames to the millisecond |
| Mp3.ChainDuration | src/modules/conversion/infrastructure/tts/mp3.ts:58-68 | The duration of a chain is the rounded sum over its frames |
| Mp3.CutFrameIsCounted | src/modules/conversion/infrastructure/tts/mp3.ts:58-84 | The duration counts exactly one frame more than is kept when the last one is cut short |
| Mp3.JoinedDuration | src/modules/conversion/infrastructure/tts/mp3-audio-assembler.adapter.ts:18-27 | The summed durations of n chunks differ from the exact one by at most n/2 milliseconds |
| Mp3.JoinedExactly | src/modules/conversion/infrastructure/tts/mp3-audio-assembler.adapter.ts:18-27 | They are exact when every frame lasts 24 ms, as MPEG-2 frames at 24 kHz do |
| Mp3.SilentMp3 | src/modules/conversion/infrastructure/tts/mp3.ts:95-102 | The buffer holds the silent frame as often as needed |
| Mp3.ProgramSilenceLasts | src/modules/conversion/infrastructure/tts/mp3.ts:58-102 | As the program itself measures it, silence lasts what was asked, rounded up to whole frames |
| Delivery.FilesAreTheDocument | src/modules/conversion/application/use-cases/assemble-part.use-case.ts:95-132 | Reading the cue files of all parts in order gives back the words of the document, each once, numbered from 0; joined they are its visible text |
| Delivery.FilesAreTheLines | src/modules/document/domain/services/extracted-text.ts:130-152 | The whole chain: joined, the cues of all parts are what the kept lines of the pages show, words cut at line ends joined again |
| Deviations.SegmentOverLimit | src/modules/conversion/domain/services/pronunciation.ts:209-223 | A page that is one number of 1590 groups or more has a segment over 4800 bytes, whatever the word lists |
| Deviations.MoreIsConsumed | src/modules/conversion/domain/services/ssml-segmenter.ts:172-177 | A page of two one-letter lines is billed two characters and its one segment counts three |
| Deviations.FailedNotRefunded | src/modules/billing/application/use-cases/refund-quota.use-case.ts:25-37 | That page, started and spoken from empty tables, then failed: nothing is refunded |
| ConversionProperties.AudioAfterFailure | src/modules/conversion/infrastructure/persistence/conversion.drizzle-repository.ts:353-382 | In any state a failed conversion gains the audio of a segment that has none |
| Deviations.AudioAfterFailureReached | src/modules/conversion/infrastructure/persistence/conversion.drizzle-repository.ts:353-382 | A run from empty tables in which a segment gains its audio after its conversion has failed |
| Deviations.StuckFromScratch | src/modules/conversion/application/use-cases/assemble-part.use-case.ts:142-154 | A run from empty tables to a synthesized conversion for which the sweep schedules nothing |
| Deviations.PageNotPermuted | src/modules/document/domain/services/layout.ts:136-139 | A page of six lines of running text whose reading order holds a segment twice |
| DocumentText.DocumentTable.UpdatePageText | src/modules/document/infrastructure/persistence/document.drizzle-repository.ts:540-570 | A correction changes one page, the document's count and its revision together, or nothing |
| DocumentText.SameRevisionSameDoc | src/modules/document/infrastructure/persistence/document.drizzle-repository.ts:540-570 | After any corrections the same revision means the same text and count |
| DocumentText.DocumentTable.ReadPages | src/modules/document/application/services/document-text-reader.service.ts:78-89 | Under any interleaved corrections, every page is read once, in order, and if the revision is still the same the texts are that revision's |
| DocumentText.DocumentTable.ReadRevision | src/modules/conversion/application/use-cases/prepare-conversion.use-case.ts:63-71 | The double revision check is sound: both revisions equal to the one of the launch mean that the pages are the text of that moment, and that the characters reserved then are the count of exactly these pages |
| DocumentText.RevisionIsText | src/modules/document/infrastructure/persistence/document.drizzle-repository.ts:540-570 | Two moments of a document with the same revision have the same pages and count |
| DocumentText.ConsumedAgainstReserved | src/modules/conversion/domain/services/ssml-segmenter.ts:172-177 | More is consumed than reserved exactly when separators outnumber the spaces that are not line breaks |
| Ocr.FirstMissingOcrPage | src/modules/document/domain/services/ocr.ts:41-47 | The smallest page not recognised yet, or none exactly when all are |
| Ocr.CoversRange | src/modules/document/application/use-cases/recognize-ocr-pages.use-case.ts:146-151 | True exactly when every page of the range was recognised |
| Ocr.ReadyIsComplete | src/modules/document/application/use-cases/recognize-ocr-pages.use-case.ts:115-134 | In every run, a text that is ready by recognition is the text of pages 1 to n in order, each of which a step of that run recognised and saved |
| Ocr.RunProgresses | src/modules/document/infrastructure/persistence/document.drizzle-repository.ts:383-438 | While extraction lasts, recognised pages and the number of pages are never lost; once it has ended, its outcome stays |
| Ocr.BatchFollows | src/modules/document/domain/services/ocr.ts:33-35 | With pages 1 to m recognised, the batch scheduled next leaves exactly pages 1 to the end of that batch, with nothing read twice |
| Ocr.BatchesNeeded | src/modules/document/application/use-cases/recognize-ocr-pages.use-case.ts:64-99 | From a document whose recognition has just started, with an engine that never fails: the worker schedules another batch before the n/10-th, rounded up, and ends on it, with the text of all pages or, when they hold none, a failure |
| Ocr.OcrTables.RecognizeBatch | src/modules/document/application/use-cases/recognize-ocr-pages.use-case.ts:64-134 | The page scheduled is the least one missing from what the batch knows; a batch at a missing page strictly reduces the missing pages or ends the extraction, whatever others do; alone, the document and the outcome are exactly those of one fault-free batch |
| Ocr.OcrTables.CompleteExtraction | src/modules/document/infrastructure/persistence/document.drizzle-repository.ts:304-348 | Written exactly while extraction lasts |
| Layout.FindTableLines | src/modules/document/domain/services/layout.ts:48-61 | A line is marked exactly when the longest run of tabular lines around it makes a table |
| LayoutRules.InTableMeans | src/modules/document/domain/services/layout.ts:38-84 | A line is in a table exactly when it lies in a maximal run of at least three lines of two or more cells, 25 characters on average, whose first richest line has three cells or more, two of them aligned with cells in three lines of five |
| Layout.FindGutter | src/modules/document/domain/services/layout.ts:146-169 | The middle of the first of the widest empty bands of the central third, if it is wide enough |
| Layout.RestoreColumnOrder | src/modules/document/domain/services/layout.ts:104-143 | The page is reordered around its gutter exactly when enough lines cross it, and otherwise unchanged |
| LayoutRules.ColumnsMean | src/modules/document/domain/services/layout.ts:104-169 | A page has two columns exactly when at least six lines have geometry and at least three and three in ten of them cross the middle of the first widest band, of 1.5 % of the page, that one in ten of the lines with two segments covers at most |
| LayoutRules.PartsMean | src/modules/document/domain/services/layout.ts:136-139 | What each column gets of a line are its segments on that side, in order, joined by blanks |
| Layout.ColumnAfterColumn | src/modules/document/domain/services/layout.ts:121-143 | Between two barriers: the left column from top to bottom, then the right one |
| Layout.BarriersHold | src/modules/document/domain/services/layout.ts:129-135 | No text moves across a full-width line, a line of a table or one without geometry |
| Layout.ReorderedSegments | src/modules/document/domain/services/layout.ts:104-143 | What comes out is what went in, and once more each segment of a split line that lies on the gutter |
| Layout.PermutationIff | src/modules/document/domain/services/layout.ts:136-139 | The output is a permutation of the segments if and only if there is no such segment |
| Cleaning.ApplyWithGuard | src/modules/document/domain/services/text-cleaning.ts:383-402 | The lines with a reason are set aside, each for it, and all others kept, in order, if the page has characters and at most half of them are in those lines; otherwise everything is kept. Cells of a table row stand between bars |
| Cleaning.CleaningLosesNothing | src/modules/document/domain/services/text-cleaning.ts:383-402 | Every line lands exactly once, in order, and at most half of the characters are set aside |
| Cleaning.RepeatsAround | src/modules/document/domain/services/text-cleaning.ts:272-279 | True exactly when six pages in a row, the page among them, hold three occurrences |
| Cleaning.CleanPages | src/modules/document/domain/services/text-cleaning.ts:196-212 | Each page normalised, laid out in reading order, then each line kept or set aside, for any classification that gives one reason per line |
| Cleaning.NormalizedShows | src/modules/document/domain/services/text-cleaning.ts:197-201 | Normalising the spaces of a line keeps what it shows |
| Cleaning.NormalizedIs | src/modules/document/domain/services/text-cleaning.ts:197-201 | Normalising keeps the lines that show something, in order, each with its runs of white space as one blank and none at its ends |
| PageAssembly.AssemblePageText | src/modules/document/domain/services/extracted-text.ts:42-63 | The loop that rewrites the last line computes the joining of the lines |
| PageAssembly.AssemblyKeepsLetters | src/modules/document/domain/services/extracted-text.ts:42-63 | Every letter of the lines is kept, in order, but one hyphen for each two lines that share a word, which depends on those two lines only |
| PageAssembly.PageTextIsMended | src/modules/document/domain/services/extracted-text.ts:42-63 | Split at line feeds and blanks, the text gives back the words of the lines, each word that two lines share made whole at the end of the first |
| PageAssembly.RowIsSqueezed | src/modules/document/domain/services/extracted-text.ts:42-63 | The words of a line, joined by blanks, are the line with its runs of white space as one blank and none at its ends |
| PageAssembly.PageTextIsItsLines | src/modules/document/domain/services/extracted-text.ts:42-63 | The visible text of a page is what its lines show, blank lines and spaces apart, without the hyphen of each word that two lines share |
| Roman.ToRoman | src/modules/conversion/domain/services/pronunciation.ts:162-187 | The loops over the symbols write the canonical form |
| Roman.ReadRoman | src/modules/conversion/domain/services/pronunciation.ts:152-160 | The signed count of the letters, accepted when writing it gives the text back |
| Roman.RomanRoundTrip | src/modules/conversion/domain/services/pronunciation.ts:152-187 | Every number from 1 on is read back from its form |
| Roman.AcceptsCanonical | src/modules/conversion/domain/services/pronunciation.ts:152-160 | A text is accepted exactly when it is the canonical form of its value |
| Roman.IsRomanNumber | src/modules/document/domain/services/text-cleaning.ts:156-179 | The greedy prefix parser accepts exactly the canonical lower-case forms within its characters and length |
| Roman.ParsersAgree | src/modules/document/domain/services/text-cleaning.ts:156-179 | Both parsers accept the same numerals, case apart |

## Left out

- Deleting documents and accounts, library listings, reviews and renames: they add only easy steps.
- HTTP controllers, queues, object storage, voices, the payment provider, PDF reading and recognition engines: only their results appear, as parameters of the steps.
- Audio bytes in the workers: a segment's audio is a value; its bytes and durations are modelled in `Mp3`, and the cache of audio and marks is not part of this model.
- File names, sizes, hashes and dates in the manifest; SHA-256 fingerprints are an arbitrary function of the SSML.
- The anchor hash of a sentence: an arbitrary predicate on its displayed words joined by spaces.
- PostgreSQL isolation: each repository method or transaction is one atomic step, as the port files promise.
- Floating point: reals, with an explicit rounding.
- Liveness: that queues deliver, that sweeps reach every row, and that a raced settlement is tried again; nor fairness.
- PaymentWorkers.PaymentTables.Initiate: does not model the limits on attempts per user and phone, which the code checks and writes non-atomically, nor the format and hashing of phone numbers.
- The calendar behind a billing period and a date in words: a period is a name, and the date rule is a parameter.
- Word lists of the pronunciation, the upper-case rule for titles and the spelling of acronyms: parameters of `Pronouncing`, whose theorems hold for all of them.
- Lower-casing and letter classes outside the basic plane: parameters on code units.
- Which lines are headers, footers, page numbers, footnotes or captions: an arbitrary classification; only the windows of repetition are modelled.
- The outline of a document; what low confidence of recognition asks to review, and the monthly allowance of recognition.
- UnitsLedger.FindReservation: a lookup on a unique index is the last row that matches; uniqueness is an invariant.
- ConversionWorkers.ConversionTables.SynthesizeSegment: the engine either gives audio, rejects the text or is unavailable; retries are the queue's.
- PaymentState.Apply: a purchase row carries its grant, where the code joins two tables.
