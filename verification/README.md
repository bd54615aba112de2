# Verification of the AFM money protocols

This project models, in Dafny 4.11, the parts of the AFM platform that move or count money, and proves properties of
every run of them.

**The Kora protocol.** Webhook deliveries, refund commands and the reconciliation workers share one database. A handler
is several database transactions with provider calls between them, so handlers interleave and can crash between two
commits. `KoraTables` holds the rows and the `Database` object the handlers work on; `KoraStatus`, `Reconciliation`,
`KoraWebhooks`, `KoraRefunds`, `KoraDelivery` and `KoraCommand` hold the handlers, as methods over that object and as the functions the
methods are proved against. `KoraSystem` is the step system: any number of deliveries (also copies of one event),
refund commands (also with one key) and workers (however stale), one committed transaction a step, with crashes and
clock ticks anywhere. The remaining modules are about all its runs:

- `KoraLedger`, `KoraLedgerRuns`: the ledger holds one posting per settled reference, and the cash balance is conserved.
- `KoraInbox`: the effect of an event id commits at most once.
- `KoraRefundRuns`, `KoraRefundMatching`, `KoraRefundTotals`: one record and one provider call per key; which refund a
  callback reaches; refunds against the payment.
- `KoraRefundStatus`: who wrote the status of a refund last, and what a replay shows.
- `KoraOutcomes`: exactly when a handler raises, which columns it writes, and what a delivery answers.
- `KoraEventOrder`: over fixed tables the ledger forgets order and repetition, the status does not.
- `KoraPayouts`: how often a payout is debited.
- `ReconciliationRuns`, `ReconciliationOutcomes`: the bound on attempts, leases, the payment status; what a run makes of a
  payment, by the words the provider answered.
- `KoraSimulation`: the sandbox payment.
- `KoraGuarantees`: the invariants together, and the balance read from the tables.
- `LedgerRace`: what the ledger law needs from the database.

**The rest.** `LedgerPages` (keyset pagination), `RateLimit` (sliding-window limiter), `OtpChallenges`, `OtpVerification` and
`OtpRace` (one-time codes), `Rounding`, `Fx`, `Fees`, `RevenueSplit`, `Portfolio` (money arithmetic), `Redaction` (incident contexts).

Instants are integers in microseconds. Stored Kora amounts are integers in units of 10^-8, the scale of the column; the
fee and split modules count cents, with fee bounds as exact fractions of a cent. Decimal context precision never cuts a digit in the model.

## Where the code does less than its documentation or its intent

Each of these is a theorem about the code as it is, with the exact condition where one exists.

- A refund callback is matched by either reference and the newest record wins, so a second refund of a payment takes the
  success of the first (`CallbackReachesNamedRefundIff`, `SuccessGoesToNewest`, `FirstRefundLosesItsSuccess`).
- Each refund command is checked against the payment alone, so several keys can refund more than was paid, while
  `docs_webhooks_refunds_corridors.md` asks for one refund at a time (`PaymentCanBeOverRefunded`,
  `CompletedStaysWithinPaymentIff`).
- The payout ledger key is the reference the event carries; a payout settled under several references is debited once
  for each (`OneDebitPerReference`, `DebitsOverRuns`, `PayoutCanBeDebitedTwice`).
- An event id whose delivery failed or crashed is acknowledged and never processed again, while the same document asks
  for a replay under the same event id (`ProcessedIffFirstDeliveryCommits`, `CrashAbandons`, `FailureAbandons`).
- The document promises a unique constraint over ledger references; the index is not unique, and two unserialised
  handlers post twice (`RunPostsOnceIff`, `OverlapIsReachable`).
- A late finish can move a completed task back to the schedule (`LateFinishReopens`, `SettledTaskDisturbedIff`).
- The worker strips a status before reading it and falls back to the payment status where there is none; the webhook does
  neither (`ReadersAgreeIff`, `ReadersDisagree`).
- The status of a payment follows the order of its events: order and repetition are invisible in it only if all events
  that write it write the same (`StatusIsLastWritten`, `OrderIsInvisibleIff`, `StatusDependsOnOrder`).
- A refund command that crashes between its first commit and its provider call leaves a record that replays answer with
  and whose key is never sent (`SentIffItsCommandCalls`, `CrashLosesRefund`).
- The document announces a ledger credit for a successful pay-in; the code writes none (`EventPosts`: an event adds its
  settlement and nothing else, and a pay-in event has none).
- Requests that share a timestamp share one log member, so the limiter admits beyond the limit
  (`SharedTimestampLosesAdmission`, `OneInstantAdmitsAll`, `WindowsHoldIff`, `CountSeesAllIff`).
- Verifications of one code that overlap lose attempts: the row is read and written without a lock
  (`AttemptsCountWrongCodesIff`, `OverlapLosesAnAttempt`).
- A currency held twice counts twice in the portfolio total and once in its breakdown (`BreakdownAddsUpIff`,
  `RepeatedCurrencyIsDropped`).
- The dollar round trip is not exact for currencies worth more than a dollar (`ConversionsInvertIff`, `EuroLosesACent`).

## Model

| member | source | states |
|---|---|---|
| Reconciliation.BackoffIsCappedExponential | payment_hub/reconciliation.py:55-58 | for every integer attempt the capped form equals the plain exponential 15 * 2^(a-1) cut at 300 |
| Reconciliation.BackoffMonotone | payment_hub/reconciliation.py:55-58 | the backoff never falls as attempts grow and stays in 15..300 seconds |
| Reconciliation.EnqueueReconciliation | payment_hub/reconciliation.py:61-100 | the imperative enqueue leaves exactly the specified tables: a new task due in 15 s and expiring in 24 h, or an update that never reopens a settled task |
| Reconciliation.EnqueueKeepsPromises | payment_hub/reconciliation.py:84-94 | on an existing task: deadline, attempts and last check kept, settled state kept, next attempt never postponed and at most 15 s away |
| Reconciliation.ClaimDue | payment_hub/reconciliation.py:107-138 | finds nothing exactly when no row is due; otherwise claims a due row that no other due row precedes, counts the attempt, stamps it, and changes nothing else |
| Reconciliation.FinishLease | payment_hub/reconciliation.py:152-195 | the imperative finish leaves exactly the specified tables, for any provider answer and however old the claim |
| ReconciliationOutcomes.FinishMakesThemAgree | payment_hub/reconciliation.py:152-195 | a finish completes or fails task and payment together by the provider's word, a final payment excepted; another answer leaves the payment and schedules or expires the task |
| ReconciliationOutcomes.FinishTouchesOneTask | payment_hub/reconciliation.py:147-165 | a finish moves one task and its payment and nothing else, and a vanished task nothing at all |
| ReconciliationOutcomes.PaymentFollowsFinishes | payment_hub/reconciliation.py:174-185 | over any reconciliation run a payment that was not final ends completed if some finish of its task succeeded, failed if none did and some was refused, else as it was |
| ReconciliationOutcomes.EnqueueWrites | payment_hub/reconciliation.py:66-94 | the references, status word, state and instants an enqueue writes, for a new task and for an old one |
| ReconciliationOutcomes.ClaimMeaning | payment_hub/reconciliation.py:112-138 | a claim takes a task scheduled by now or taken five minutes ago, and verifies its payment reference, or its transaction reference where there is none |
| ReconciliationOutcomes.EarliestFirst | payment_hub/reconciliation.py:123 | the claimed task is scheduled no later than any other due one |
| Reconciliation.ReconcileDueOnce | payment_hub/reconciliation.py:103-196 | an undisturbed round does nothing exactly when nothing is due, else claims the first due row and finishes that same row |
| Reconciliation.FinishAtDeadlineParks | payment_hub/reconciliation.py:186-191 | a finish at or after the deadline leaves the task completed, failed or expired with no next attempt |
| KoraStatus.NormalizeIsStable | payment_hub/reconciliation.py:42-52 | normalizing a status that was already stripped and lower-cased reads it as it stands |
| KoraStatus.ReadersAgreeIff | payment_hub/reconciliation.py:42-52 | the webhook (api_gateway/main.py:1858) and the worker read a payload alike if and only if its status has no outer blanks or is no verdict once stripped and, where it is absent, the payment status is no verdict |
| KoraStatus.ReadersDisagree | api_gateway/main.py:1858-1861 | a padded success, and a success under the payment status alone, are seen by the worker and not by the webhook |
| KoraStatus.WebhookReadsWords | api_gateway/main.py:1858-1893 | the webhook reads a status as a success or a refusal exactly when it spells one of the four words of each, in any case and with nothing around it |
| KoraStatus.WorkerReadsWords | payment_hub/reconciliation.py:18-52 | the worker's verdict is such a word of the stripped status, or of the payment status where there is none |
| KoraStatus.StripCore | payment_hub/reconciliation.py:43 | stripping keeps the part between the outer blanks |
| KoraStatus.BlankCharacters | payment_hub/reconciliation.py:43 | the characters stripping removes, one by one |
| KoraStatus.KindsByWord | api_gateway/main.py:1827-1840 | a refund event and a payout event are told by the word their kind begins with, in any case |
| KoraWebhooks.ProcessBusinessEvent | api_gateway/main.py:1818-1910 | the imperative handler succeeds with the specified tables or raises, for payment and refund events, unknown, ambiguous and missing references included |
| KoraOutcomes.PaymentEventRaisesIff | api_gateway/main.py:1832-1876 | a payment event raises if and only if it names no reference, or two AFM payments carry it, or it is a payout that none carries, or its debit is already posted several times |
| KoraOutcomes.EventReferenceMeaning | api_gateway/main.py:1832-1839 | an event names its payment by the first of its three reference fields that is present |
| KoraOutcomes.LookupMeaning | api_gateway/main.py:1841-1852 | the lookup finds none, one or several exactly as that many AFM payments have the reference in one of three columns |
| KoraOutcomes.PaymentEventWrites | api_gateway/main.py:1858-1905 | a payment event that returns writes one payment: the webhook instant always, the status by the verdict, the settlement instant on success alone, a reconciliation task on an intermediate status alone |
| KoraOutcomes.PayoutDebit | api_gateway/main.py:1864-1883 | a settled payout is debited with the payment's amount and currency from its account under the event's reference |
| KoraOutcomes.RefundEventRaisesIff | api_gateway/main.py:1739-1759 | a refund event raises if and only if it lacks a reference, or no refund matches, or the newest match has no AFM payment, or its debit is already posted several times |
| KoraOutcomes.RefundEventWrites | api_gateway/main.py:1761-1815 | a refund event that returns writes the newest match: success, failed or processing by the verdict, completed_at on success alone, the payment refunded on success alone |
| KoraOutcomes.RefundDebit | api_gateway/main.py:1775-1799 | a completed refund is debited with its amount and currency from the payment's account |
| KoraOutcomes.UnmatchedPayoutFails | api_gateway/main.py:1853-1855 | a new payout event that no AFM payment carries is answered with an error, its row reads failed and no business table changes |
| KoraOutcomes.UnmatchedPayInPasses | api_gateway/main.py:1853-1856 | a new pay-in event that no AFM payment carries is accepted, its row reads processed and no business table changes |
| KoraOutcomes.DeliveryTellsOutcome | api_gateway/main.py:1969-1981 | a new delivery reads processed or failed, and is answered so, exactly as its handler returned or raised |
| KoraOutcomes.RedeliveryAnswer | api_gateway/main.py:1961-1967 | after any run an event delivered again is answered as processed if and only if its first delivery committed, and changes nothing |
| KoraWebhooks.ProcessRefundWebhook | api_gateway/main.py:1737-1815 | the imperative refund handler succeeds with the specified tables or raises |
| KoraWebhooks.AddEntryOnce | api_gateway/main.py:1864-1890 | an entry is appended exactly when its reference is not posted; several existing rows raise |
| KoraWebhooks.MatchTransaction | api_gateway/main.py:1841-1852 | the lookup returns the one AFM payment carrying the reference in any of its three columns, and tells missing from ambiguous |
| KoraDelivery.KoraWebhook | api_gateway/main.py:1914-1985 | an unsigned delivery leaves no trace, a seen event id is acknowledged unchanged, a new one ends processed with its effects or failed with none |
| KoraDelivery.DeliveryIsRun | api_gateway/main.py:1952-1981 | the uninterrupted handler is a run of the step system with the same tables at its end |
| KoraSystem.RunFrame | payment_hub/models.py:168-192 | over any run the ledger only grows at its end and payments and refunds are never deleted or re-identified |
| KoraLedger.EventPosts | api_gateway/main.py:1818-1910 | a committed event adds exactly the posting of its settlement, once, keeps references unique, and an event that settles something never raises |
| KoraLedgerRuns.LedgerIsSettlements | api_gateway/main.py:1772-1799 | after any run of the whole system each Kora reference is posted at most once and the postings are the initial ones together with the settlements that committed |
| KoraLedgerRuns.GetVirtualCashBalance | api_gateway/main.py:751-761 | the loop returns the sum of the account's signed entries, credits plus and everything else minus |
| KoraLedgerRuns.BalanceIsCreditsMinusDebits | api_gateway/main.py:751-761 | the balance is the credits minus the debits of the account |
| KoraSimulation.SimulatePayment | api_gateway/main.py:1309-1386 | refused in production and when the fees exceed the amount; else adds a pending payment and a journal entry of zero, and no balance changes |
| KoraSimulation.FeesByDirection | api_gateway/main.py:1321-1325 | the payout fee counts for payouts alone |
| KoraSimulation.SimulationIsStep | api_gateway/main.py:1327-1381 | a simulated payment is a step of the system with the same tables |
| KoraLedgerRuns.BalanceSplit | api_gateway/main.py:751-761 | a ledger of unique Kora debits is worth its other entries minus its set of postings |
| KoraLedgerRuns.OthersKept | api_gateway/main.py:1370-1381 | simulated payments and every other step leave the balance of the non-Kora entries unchanged over any run |
| KoraLedgerRuns.CashBalanceIsConserved | api_gateway/main.py:751-761 | over any run the balance falls by exactly the settlements committed and not posted before, each distinct one once |
| KoraGuarantees.RunKeepsSystem | api_gateway/main.py:1818-1985 | every step of every handler, in any interleaving with crashes, keeps all invariants together |
| KoraGuarantees.PostingsAreRefundsAndPayouts | api_gateway/main.py:1762-1799 | the Kora postings are the payout postings together with one debit per refund whose completed_at is set |
| KoraGuarantees.BalanceIsPayoutsAndRefunds | api_gateway/main.py:1864-1890 | from an empty ledger, after any run: balance = minus the distinct payout settlements minus the refunds that ever succeeded |
| KoraGuarantees.EveryReachableState | api_gateway/main.py:1762-1985 | every state reachable from an empty database keeps all invariants and has that balance |
| KoraInbox.AtMostOneCommit | api_gateway/main.py:1952-1977 | in every interleaving of deliveries of one event id its business effect commits at most once, and the row reads processed exactly when it did |
| KoraInbox.FailedDeliveriesLeaveNoTrace | api_gateway/main.py:1952-1981 | any number of interleaved, repeated, failing and crashing deliveries of which none commits leaves every business table unchanged |
| KoraInbox.AbandonedForever | api_gateway/main.py:1961-1967 | once its delivery failed or crashed, an event id keeps its row and never takes effect in any later run, redeliveries included |
| KoraInbox.CrashAbandons | api_gateway/main.py:1952-1958 | a first delivery that crashes after its first commit leaves its event id abandoned |
| KoraInbox.FailureAbandons | api_gateway/main.py:1977-1981 | a first delivery whose handler raises or whose commit is refused leaves its event id abandoned |
| KoraInbox.ProcessedIffFirstDeliveryCommits | api_gateway/main.py:1952-1981 | over any run an event id without a row ends processed if and only if the first delivery of it commits |
| KoraEventOrder.LedgerOfSequence | api_gateway/main.py:1737-1910 | over fixed tables, after any sequence of events with any repeats: one posting per settlement of an event that came at all |
| KoraEventOrder.OrderAndRepetitionAreInvisible | api_gateway/main.py:1737-1910 | two sequences with the same set of events leave the same postings, each reference once |
| KoraEventOrder.StatusIsLastWritten | api_gateway/main.py:1737-1905 | after any sequence of payment and refund events the status of a payment is the one written by the last event that writes it (completed, failed, processing or refunded), and the initial one if none does |
| KoraEventOrder.SequencesAgreeIff | api_gateway/main.py:1737-1905 | two sequences leave a payment the same status if and only if their last writing events write the same |
| KoraEventOrder.OrderIsInvisibleIff | api_gateway/main.py:1737-1905 | every order and repetition of the same events leaves the same status if and only if all of them that write it write the same |
| KoraEventOrder.LastEventDecides | api_gateway/main.py:1861-1905 | an event that writes the status of a payment decides it if no later one writes it |
| KoraEventOrder.StatusDependsOnOrder | api_gateway/main.py:1861-1897 | a success and a failure of one payout end failed or completed depending on their order |
| KoraRefundStatus.RefundIsLastWritten | api_gateway/main.py:1761-1810 | after any sequence of events a refund's status is the one the last event that reaches it writes by its word, and completed_at the instant of the last success that reaches it |
| KoraRefundStatus.RecordReadsLastStatus | api_gateway/main.py:1665-1697 | over any run a record reads what was written last: requested by its insert, the provider's word or failed by its command, the word of a callback that reaches it |
| KoraRefundStatus.ReplayShowsReply | api_gateway/main.py:1653-1663 | while no callback reaches it, a command's record is replayed with the status its provider call left, failed and without funds movement after an error |
| KoraPayouts.CoincidingPayoutDebitedOnce | api_gateway/main.py:1841-1883 | over any run of the whole system a payment whose references coincide has at most one payout debit |
| KoraPayouts.DebitsOverRuns | api_gateway/main.py:1864-1883 | over any run a payment is debited once for each reference it was settled under; at most once if and only if these agree |
| KoraPayouts.OneDebitPerReference | api_gateway/main.py:1864-1883 | after any sequence of events the references posted for a payment are those posted before and those of the events settling it, one debit each; at most one if and only if they agree |
| KoraPayouts.PayoutCanBeDebitedTwice | api_gateway/main.py:1841-1852 | a concrete payout known by its idempotency key and its provider id is debited twice |
| LedgerRace.SerialisedRunsPostOnce | payment_hub/models.py:188-191 | with select and insert as separate steps, runs serialised per reference post each reference at most once |
| LedgerRace.RunPostsOnceIff | api_gateway/main.py:1865-1890 | over any run, whatever overlaps, each reference is posted at most once if and only if every insert found its reference still unposted |
| LedgerRace.UndisturbedHandlerIsPostOnce | api_gateway/main.py:1864-1890 | select and insert with nothing between them post what the handler posts, and nothing when the select raises |
| LedgerRace.OverlapIsReachable | payment_hub/models.py:188-191 | two deliveries, the second selecting before the first inserts, post one reference twice |
| KoraRefunds.CreateKoraRefund | api_gateway/main.py:1595-1713 | the command check by check: a record is created exactly when all conditions hold and it fits the unique columns; it carries the key, the payment and its reference, and reads failed after a provider error, else the reply's word; otherwise no row changes |
| KoraCommand.CommandIsRun | api_gateway/main.py:1608-1702 | the uninterrupted command is a run of the step system with the same tables at its end, calling the provider exactly when it creates a record |
| KoraRefunds.ProceedsIff | api_gateway/main.py:1608-1663 | a command creates a record if and only if all its conditions hold, in whatever order they are checked |
| KoraRefunds.RefusedByFirstFailure | api_gateway/main.py:1608-1663 | a command is refused with the code of the first check it fails; one that passes them all is previewed, replayed or recorded |
| KoraRefunds.RequestedAmountMeaning | api_gateway/main.py:1626 | the amount is what is asked, or the whole payment, to the nearest cent with ties to the even one |
| KoraRefunds.AcceptedAmount | api_gateway/main.py:1626-1628 | an accepted amount is whole cents, between zero and the payment, for a settled non-payout Kora payment |
| KoraRefundRuns.RefundCommandsAreSafe | api_gateway/main.py:1648-1702 | in every run, concurrent commands on one key included: one record and one provider call per key, each call with a record, each new record backed by an eligible parent as its command read it |
| KoraRefundRuns.ReplayIsStable | api_gateway/main.py:1649-1663 | once a key has a record, after any run a command with the key replays that very record if and only if it passes every other check, and never creates another; the record's amount, payment and references never change |
| KoraRefundRuns.SentIffItsCommandCalls | api_gateway/main.py:1677-1687 | over any run the key of a stored record is sent to the provider if and only if the command that stored it gets to its call |
| KoraRefundRuns.UnsentForever | api_gateway/main.py:1649-1663 | a record whose command is gone before its call is never sent in any later run, whatever is replayed |
| KoraRefundRuns.CrashLosesRefund | api_gateway/main.py:1665-1679 | a command that creates a record and crashes before its call leaves its key so |
| KoraRefundRuns.StepKeepsCompletion | api_gateway/main.py:1762-1799 | in every reachable state completed_at is set exactly on the refunds whose debit is in the ledger |
| KoraRefundMatching.CallbackReachesNamedRefundIff | api_gateway/main.py:1744-1752 | a callback naming a refund by both references reaches it if and only if no later refund shares its payment reference |
| KoraRefundMatching.SuccessGoesToNewest | api_gateway/main.py:1744-1799 | the success of a shadowed refund completes the newest refund of the payment reference and posts that one's reference and amount; the named refund stays as it was |
| KoraRefundMatching.NextRecordShadows | api_gateway/main.py:1665-1679 | any further record of a payment reference shadows the earlier ones |
| KoraRefundMatching.FirstRefundLosesItsSuccess | api_gateway/main.py:1744-1799 | two concrete commands and the success of the first: the second completes and is debited |
| KoraRefundMatching.ShadowedRefundNeverCompletes | api_gateway/main.py:1744-1764 | in no run does a refund that is shadowed by a later one complete through its own callbacks |
| KoraRefundTotals.PaymentCanBeOverRefunded | api_gateway/main.py:1626-1679 | a payment already refunded in full accepts another full refund under a new key, and its success makes twice the payment go out |
| KoraRefundTotals.CompletedStaysWithinPaymentIff | api_gateway/main.py:1762-1799 | over any run the refunds of a payment that went through stay within it if and only if each completion fitted what the earlier ones had left |
| KoraRefundTotals.TotalStaysWithinPaymentIff | api_gateway/main.py:1626-1679 | over any run the records of a payment, refused ones included, stay within it if and only if each fitted what was left when it was inserted |
| KoraRefundTotals.FittingRecordsAreEnough | api_gateway/main.py:1626-1679 | when each record fits what the records before it left, no more than the payment ever goes out |
| ReconciliationRuns.TaskMoves | payment_hub/reconciliation.py:61-196 | every step of the system moves each task in one of four ways: enqueued, claimed while due, finished, or untouched |
| ReconciliationRuns.AttemptsAreBounded | payment_hub/reconciliation.py:107-136 | from a task's birth, in any interleaving of claims, crashes, re-claims and stale finishes: at most 292 claims by its deadline, plus one per re-enqueue |
| ReconciliationRuns.TasksAreBorn | payment_hub/reconciliation.py:73-83 | whatever step brings a task into the table, it is there scheduled in 15 s, unattempted and expiring in 24 h |
| ReconciliationRuns.ClaimsAreBounded | payment_hub/reconciliation.py:186-194 | the same from any state on the backoff schedule: the attempts made so far and the claims still made in time fit the bound |
| ReconciliationRuns.BoundIsAttained | payment_hub/reconciliation.py:186-194 | from the birth of any task there is a run of the system in which one worker claims it 292 times by its deadline, with no re-enqueue |
| ReconciliationRuns.StatusIsMonotone | payment_hub/reconciliation.py:174-185 | under reconciliation alone, with any number of stale workers: the status never moves down, a final payment is never touched, settled_at is written at most once and exactly when the run completes the payment |
| ReconciliationRuns.LeasesAreExclusive | payment_hub/reconciliation.py:115-136 | if claims are finished within five minutes and no enqueue meets one in flight, claims of one task never overlap |
| ReconciliationRuns.SettledTasksAbsorb | payment_hub/reconciliation.py:186-188 | under the same discipline a completed or failed task stays so and is not attempted again |
| ReconciliationRuns.ExpiredTasksRest | payment_hub/reconciliation.py:189-191 | under the same discipline an expired task is left alone until it is enqueued again |
| ReconciliationRuns.SettledTaskDisturbedIff | payment_hub/reconciliation.py:152-194 | without the discipline a step takes a task out of a settled state if and only if it is a finish of that task whose answer disagrees |
| ReconciliationRuns.LateFinishReopens | payment_hub/reconciliation.py:115-194 | a run of two workers, one five minutes late: the task is completed by the other and put back on the schedule by the late finish |
| ReconciliationRuns.ReclaimWaitsForLease | payment_hub/reconciliation.py:115-118 | with no discipline at all, two claims of a task with no finish and no enqueue between them are at least 300 s apart |
| ReconciliationRuns.TaskRowPersists | payment_hub/models.py:209-226 | over any run a payment's task is never removed, its deadline never moves and its attempt count is the number of its claims |
| LedgerPages.QueryMeaning | api_gateway/main.py:840-861 | a page is in strictly descending order, has only own entries behind the cursor, and leaves out only entries behind all it returned |
| LedgerPages.NewestFirst | api_gateway/main.py:861 | a page goes from newer to older entries, larger ids first among equal instants |
| LedgerPages.EndpointMeaning | api_gateway/main.py:838-877 | a token is refused if and only if no own entry has its id; else the page holds own entries older than the token's, and hands out its last id exactly when it is full |
| LedgerPages.WalkIsDescending | api_gateway/main.py:838-877 | every walk, under any appends between requests, returns entries in strictly descending order and no token it was given is refused |
| LedgerPages.WalkEnumeratesTheLedger | api_gateway/main.py:838-877 | a finished walk from the first page returns each entry present at the start exactly once, whatever was appended meanwhile |
| LedgerPages.WalkTerminates | api_gateway/main.py:874-877 | for every limit of at least one, whatever is appended and wherever it sorts, the walk ends once its pages could hold more than the entries its last request sees |
| LedgerPages.WalkIsShort | api_gateway/main.py:874-877 | while entries newer than those it started with are appended, it ends within entries/limit + 1 pages |
| RateLimit.RateLimiter.IsAllowed | config/rate_limit.py:26-45 | allowed exactly when fewer than the limit are counted; the log of that key alone changes, a rejected stamp being removed again |
| RateLimit.RateLimiter.RunPipeline | config/rate_limit.py:31-38 | the pipeline counts the trimmed log before adding the request and renews the time to live |
| RateLimit.PipelineMeaning | config/rate_limit.py:29-38 | the log a request leaves: what it saw after the start of its window, and itself, for one second more than the window; the count is of the former |
| RateLimit.UndisturbedCallIsRun | config/rate_limit.py:26-45 | is_allowed undisturbed is a run of requests and removals with the log and the verdict the method leaves |
| RateLimit.WindowsHoldIff | config/rate_limit.py:26-45 | over every run, shared timestamps and delayed, lost or interleaved removals included, every window (t-w, t] for real t stays within the limit if and only if each admission found room in its own window |
| RateLimit.CountSeesAllIff | config/rate_limit.py:31-38 | the pipeline's count sees every admission of its window if and only if no two share a timestamp and no removal took one |
| RateLimit.AtMostLimitPerWindow | config/rate_limit.py:26-45 | any window of any run holds at most the limit of admissions when each was decided on a count that saw the earlier ones |
| RateLimit.DistinctStampsKeepLimit | config/rate_limit.py:26-45 | distinct timestamps are enough for that, whatever removals do |
| RateLimit.RejectedIffWindowFull | config/rate_limit.py:38-44 | a request is rejected if and only if its window holds the limit of timestamps used and not removed; with no removal outstanding and all admissions in sight, the limit of admissions |
| RateLimit.ExpiryChangesNothing | config/rate_limit.py:35 | key expiry one second after the window hides no member the trim would keep |
| RateLimit.SharedTimestampLosesAdmission | config/rate_limit.py:34-41 | three calls with one timestamp and a limit of one: admitted, rejected and removed, admitted |
| RateLimit.OneInstantAdmitsAll | config/rate_limit.py:31-38 | with a limit of two or more, any number of calls of one instant is admitted |
| OtpChallenges.OtpStore.RequestOtp | api_gateway/auth.py:239-263 | refuses within 60 s of the previous challenge of the subject, else adds one, consumed at once if delivery fails |
| OtpChallenges.OtpStore.VerifyOtp | api_gateway/auth.py:275-303 | the verdict and the written challenge for every branch: unavailable, exhausted, wrong, declined, disabled, verified; other subjects untouched |
| OtpVerification.VerifiesIff | api_gateway/auth.py:275-326 | a verification succeeds if and only if the newest open challenge is unexpired, has attempts left and carries the code, with consents given and the account active |
| OtpVerification.OtherVerdictsIff | api_gateway/auth.py:286-326 | exactly when each refusal is given |
| OtpVerification.VerdictWrites | api_gateway/auth.py:290-326 | one more attempt on the challenge for a wrong code, a missing consent and a success, which consumes it; nothing for a disabled account |
| OtpVerification.RequestMeaning | api_gateway/auth.py:239-258 | a request is refused exactly within 60 seconds of the previous challenge, else adds an open one with the configured lifetime |
| OtpVerification.CodeVerifiesIff | api_gateway/auth.py:275-303 | after any run the code of a challenge verifies if and only if it is not consumed, not superseded, not expired and has attempts left |
| OtpVerification.FreshCodeVerifies | api_gateway/auth.py:239-303 | the code of a fresh challenge verifies after any run that neither supersedes nor consumes it, within its lifetime and its attempts |
| OtpChallenges.WrongCodesAreBounded | api_gateway/auth.py:239-294 | in any T seconds of any run the wrong codes evaluated for one subject are at most max_attempts * (floor((T+E)/60)+1) |
| OtpChallenges.VerificationsAreSound | api_gateway/auth.py:398-417 | no challenge is verified twice or outside its lifetime, and no challenge exceeds its attempts |
| OtpRace.AttemptsCountWrongCodesIff | api_gateway/auth.py:288-294 | with read and write as separate steps, the attempts count the wrong codes if and only if no write was overtaken by another; then the limit holds, otherwise the count stays short for good |
| OtpRace.SerialisedRunsAreCurrent | api_gateway/auth.py:408-414 | verifications one after the other overtake no write |
| OtpRace.UndisturbedVerificationIsJudged | api_gateway/auth.py:288-294 | read and write with nothing between them store the attempts the handler stores for a wrong code and compare one code |
| OtpRace.ExhaustedReadsNothing | api_gateway/auth.py:288-289 | the read ends the verification exactly when the handler answers that the attempts are used up |
| OtpRace.OverlapLosesAnAttempt | api_gateway/auth.py:288-294 | two overlapping verifications compare two wrong codes and count one |
| Fees.FeeIsClampOfRounded | payment_hub/payment_service.py:183-192 | rounding and clamping commute: the fee is the rounded commission between the rounded converted bounds, for bounds of any fineness |
| Fees.FeeWithinBounds | payment_hub/payment_service.py:174-203 | fee and net sum to the amount; the fee is at most the converted maximum to the cent and at least the smaller of the two bounds to the cent, for any settings and currency |
| Fees.OrderedBoundsHold | payment_hub/payment_service.py:174-203 | when the configured minimum is nonnegative and not above the maximum, the fee lies between the converted bounds, each to the cent, in every currency |
| Fees.FineBoundRoundsUp | common/fx.py:49-50 | a dollar bound with a fraction of a cent is rounded only with the fee: a maximum of 50.005 charges 50.01 |
| Fees.TwoPercent | payment_hub/payment_service.py:174-203 | the configured two percent on three amounts: two dollars of a hundred, the minimum, the maximum |
| Fees.FeeTies | revenue_engine/revenue_engine.py:141-149 | a commission of two and a half cents is three, an estimated provider share of four and a half is four |
| Fees.PspRates | revenue_engine/revenue_engine.py:88-95 | the provider rates by name, in any case |
| Fees.FeeAndNetAreMonotone | payment_hub/payment_service.py:174-203 | a larger payment pays no smaller fee and yields no smaller net amount, clamping and rounding included, for every pair of bounds |
| Fees.FeeIsNearestCommission | payment_hub/payment_service.py:183-192 | between the bounds the fee is the commission to the nearest cent, above them the maximum to the cent, below them the smaller bound to the cent |
| Fees.EnginesAgree | revenue_engine/revenue_engine.py:118-173 | the revenue engine and the payment service charge the same fee and leave the same net for equal settings |
| Fees.PspFeeIsNearest | revenue_engine/revenue_engine.py:147-149 | the estimated provider fee is its rate to the nearest cent |
| Fx.BoundsStayOrdered | common/fx.py:36-63 | converted bounds stay nonnegative and in order for every currency, known or not |
| Fx.ConvertedBoundIsNearest | common/fx.py:58-61 | a converted bound is worth the dollar bound to half a local cent |
| Fx.UsdRoundTrip | easymarkets/dashboard_service.py:23-40 | dollars to local money and back give the same cents at every rate of at most one |
| Fx.UsdRoundTripIff | easymarkets/dashboard_service.py:10-40 | for every positive rate the dollar round trip is the identity on all amounts if and only if the rate is at most one |
| Fx.ConversionsInvertIff | easymarkets/dashboard_service.py:23-40 | the two conversions give every dollar amount back if and only if the currency is known and worth at most a dollar |
| Fx.EuroLosesACent | easymarkets/dashboard_service.py:10-40 | seven dollar cents come back from euros as six |
| Fx.HundredThousandUnits | easymarkets/dashboard_service.py:11-21 | what a hundred thousand units of each currency are worth in dollars |
| Fx.KnownCurrencies | easymarkets/dashboard_service.py:23-40 | the nine known currencies, in any case; the others are refused both ways |
| Fx.UnconvertedBounds | common/fx.py:47-56 | dollar bounds stay as they are in dollars and in every currency without a rate |
| Fx.TiesGoUp | easymarkets/dashboard_service.py:23-40 | a tie goes away from zero in both conversions and in the fee bounds |
| Fx.LocalRoundTripError | easymarkets/dashboard_service.py:23-40 | local money to dollars and back errs by at most half a dollar cent at the rate plus half a local cent |
| Portfolio.GetPortfolioValue | easymarkets/dashboard_service.py:42-62 | the loop fails exactly when a currency is unknown, else returns the sum of the values and the last holding of each currency |
| Portfolio.TotalIsNear | easymarkets/dashboard_service.py:42-62 | the total errs by at most half a cent a holding |
| Portfolio.BreakdownMeaning | easymarkets/dashboard_service.py:51-54 | the breakdown lists exactly the currencies held, each with its last holding |
| Portfolio.TotalIsBreakdownAndReplaced | easymarkets/dashboard_service.py:42-62 | the total is the breakdown and what later holdings of the same currency replaced in it, for holdings of any sign |
| Portfolio.BreakdownAddsUpIff | easymarkets/dashboard_service.py:42-62 | the breakdown adds up to the total if and only if the replaced holdings cancel out; for nonnegative holdings, if and only if no currency is listed again after a holding of some value |
| Portfolio.RepeatedCurrencyIsDropped | easymarkets/dashboard_service.py:42-62 | one dollar and then two: three in the total, two in the breakdown |
| RevenueSplit.SharesSumToGross | revenue_engine/revenue_engine.py:34-60 | the three shares sum to the gross amount for any rates |
| RevenueSplit.SplitIsFair | revenue_engine/revenue_engine.py:34-60 | with rates that sum to one: at most one cent is moved, to a largest share, no share is negative, each is within a cent and a half of its exact value |
| RevenueSplit.CorrectionOrder | revenue_engine/revenue_engine.py:41-48 | among equal largest shares the creator's is corrected first, then that of the ads |
| RevenueSplit.SharesAreNearest | revenue_engine/revenue_engine.py:37-39 | the shares before correction are the exact ones to the nearest cent |
| RevenueSplit.ThirtyCents | revenue_engine/revenue_engine.py:34-48 | at 35, 50 and 15 percent thirty cents split 11, 14 and 5 |
| Redaction.SensitiveIffWordInside | payment_hub/support_ai.py:18 | a key is sensitive if and only if one of the words stands somewhere in it, in any case |
| Redaction.WordInAnyCase | payment_hub/support_ai.py:18 | one of the words anywhere in a key, each letter in either case, makes it sensitive |
| Redaction.FoldedLetters | payment_hub/support_ai.py:18 | the letters besides the capitals that match a letter of another form |
| Redaction.ClippedText | payment_hub/support_ai.py:49-50 | a text of up to 512 characters stays, of a longer one the first 512 and an ellipsis |
| Redaction.SecretIsMarked | payment_hub/support_ai.py:43-46 | under a sensitive key the result holds the mark |
| Redaction.SanitizeFieldsAssigns | payment_hub/support_ai.py:43-46 | a mapping is sanitized one assignment at a time, a key spelled like an earlier one replacing its value in place |
| Redaction.SanitizeHidesExactlySecrets | payment_hub/support_ai.py:41-51 | two contexts sanitize alike if and only if they agree outside sensitive keys, at any depth, up to clipped text, tuples, and keys that str spells alike |
| Redaction.SanitizeFixesCleanOnly | payment_hub/support_ai.py:41-51 | sanitizing changes nothing if and only if the value is clean, at every depth |
| Redaction.SanitizeIsIdempotent | payment_hub/support_ai.py:41-51 | sanitizing twice is sanitizing once, the ellipsis added by clipping included |

## Left out

- KoraRefunds.CreateKoraRefund: the digest in the refund reference is an injective stand-in; only injectivity is used.
- LedgerRace.SerialisedRunsPostOnce: elsewhere a business handler is one atomic step, which is the serialisation this module shows to be needed.
- KoraRefundMatching.CallbackReachesNamedRefundIff: refunds are listed in creation order; equal created_at instants, whose order the query leaves open, are not modelled.
- RateLimit.WindowsHoldIff: timestamps are nondecreasing real numbers and Redis reads the same clock; limiters whose clocks disagree are not modelled.
- OtpChallenges.WrongCodesAreBounded: request and verification are atomic steps on one subject's challenges; `OtpRace` shows what overlapping verifications do to one challenge, overlapping requests are not modelled.
- LedgerPages.WalkIsShort: an entry that becomes visible with an older timestamp than existing ones can add pages; `WalkTerminates` covers it.
- ReconciliationRuns.StatusIsMonotone: a finish is one atomic step, while the code (`payment_hub/reconciliation.py:153-195`) reads the payment and writes it without a row lock; two finishes whose reads and writes interleave are not modelled.
- The business handler's row locks, the SQL engine, Redis and the web framework are maps, sequences, unique keys and atomic steps.
- Provider clients (Kora and others), signatures and digests: the provider's answer is an arbitrary input, a valid signature is a boolean.
- The derivation of an event id from a payload, response bodies, error messages, stored provider responses, phone verification stamps and payment metadata other than the payout mark.
- The reconciliation worker's endless loop and its error handling: a step system run is any number of its rounds.
- `PaymentService.process_payment`: the live method calls a lock only a legacy class defines; only the fee functions are modelled.
- The KYC1 monthly limit: validation-only payouts create counted rows without the check, so it is no invariant of runs.
- `WalletService`, PSP routing, market hours, brokers, copy trading, offset pagination, key rotation, incident classification: short branches with easy claims.
- User profile updates, tokens and the remaining routes of the gateway; web pages, scripts, migrations, logging, metrics.
