/** Option and Result, the values that stand for a nullable column and for a raised exception. */
module Wrappers {

  datatype Option<+T> = None | Some(value: T)

  datatype Result<+T> = Success(value: T) | Failure(reason: string)
}

/** The rows of payment_hub/models.py that the Kora protocol reads and writes. */
module KoraTables {
  import opened Wrappers

  /** Instants and durations, in microseconds (the resolution of the stored timestamps). */
  type Time = int

  function Seconds(n: int): Time {
    n * 1_000_000
  }

  datatype PaymentStatus = Pending | Processing | Completed | Failed | Refunded | Held

  const AFM_PAYMENTS := "afm_payments"

  /** A payment row. Nullable text columns hold "" when absent: every query here treats both alike.
      Amounts are integers in units of 10^-8, the scale of the column. */
  datatype Transaction = Transaction(
    user: nat,
    viaKora: bool,
    ledgerNamespace: string,
    isPayout: bool,
    idempotencyKey: string,
    pspTransactionId: string,
    pspPaymentReference: string,
    account: Option<nat>,
    amount: int,
    currency: string,
    status: PaymentStatus,
    settledAt: Option<Time>,
    webhookReceivedAt: Option<Time>)

  datatype Refund = Refund(
    transactionId: nat,
    refundReference: string,
    idempotencyKey: string,
    paymentReference: string,
    amount: int,
    currency: string,
    status: string,
    completedAt: Option<Time>)

  datatype TaskState = TaskScheduled | TaskProcessing | TaskCompleted | TaskFailed | TaskExpired

  datatype Task = Task(
    paymentReference: string,
    transactionReference: string,
    providerStatus: string,
    state: TaskState,
    attemptCount: nat,
    nextAttemptAt: Option<Time>,
    expiresAt: Time,
    lastCheckedAt: Option<Time>)

  /** The pair (reference_type, reference_id) of a ledger entry. */
  datatype Reference =
    | ToTransaction(transactionId: nat)
    | KoraPayout(reference: string)
    | KoraRefund(refundReference: string)

  datatype Direction = Credit | Debit

  datatype LedgerEntry = LedgerEntry(
    id: nat,
    account: nat,
    direction: Direction,
    amount: int,
    currency: string,
    reference: Reference,
    occurredAt: Time)

  datatype EventStatus = Received | Processed | EventFailed

  /** The fields of a provider payload; an absent or null field reads as "". */
  datatype KoraData = KoraData(
    reference: string,
    transactionReference: string,
    paymentReference: string,
    status: string,
    paymentStatus: string)

  /** A delivery whose signature has been verified. */
  datatype Event = Event(id: string, kind: string, data: KoraData)

  datatype EventRow = EventRow(event: Event, status: EventStatus)

  /** The shared database. A task is keyed by its transaction and an event row by its event id,
      the unique columns of models.py:200 and models.py:216. Refunds are listed in creation order. */
  datatype Tables = Tables(
    transactions: map<nat, Transaction>,
    refunds: seq<Refund>,
    tasks: map<nat, Task>,
    ledger: seq<LedgerEntry>,
    events: map<string, EventRow>)

  /** The database session the handlers work on. */
  class Database {
    var transactions: map<nat, Transaction>
    var refunds: seq<Refund>
    var tasks: map<nat, Task>
    var ledger: seq<LedgerEntry>
    var events: map<string, EventRow>

    function View(): Tables
      reads this
    {
      Tables(transactions, refunds, tasks, ledger, events)
    }

    /** Restores the rows a failed unit of work had changed. */
    method Rollback(saved: Tables)
      modifies this
      ensures View() == saved
    {
      transactions, refunds, tasks := saved.transactions, saved.refunds, saved.tasks;
      ledger, events := saved.ledger, saved.events;
    }
  }

  // ----- The ledger as a set of postings -----

  /** What a Kora entry records, without its row id and timestamp. */
  datatype Posting = Posting(reference: Reference, account: nat, amount: int, currency: string)

  function PostingOf(e: LedgerEntry): Posting {
    Posting(e.reference, e.account, e.amount, e.currency)
  }

  /** Entries of the provider protocol, as opposed to zero-value payment intents. */
  predicate IsKora(r: Reference) {
    !r.ToTransaction?
  }

  function KoraPostings(ledger: seq<LedgerEntry>): set<Posting> {
    set e | e in ledger && IsKora(e.reference) :: PostingOf(e)
  }

  /** scalar_one_or_none found a row. */
  predicate HasEntry(ledger: seq<LedgerEntry>, r: Reference) {
    exists i | 0 <= i < |ledger| :: ledger[i].reference == r
  }

  /** scalar_one_or_none found several rows, and raises. */
  predicate HasSeveralEntries(ledger: seq<LedgerEntry>, r: Reference) {
    exists i, j | 0 <= i < j < |ledger| :: ledger[i].reference == r && ledger[j].reference == r
  }

  /** No Kora reference is posted twice. The index of models.py:190 does not enforce this. */
  predicate KoraReferencesUnique(ledger: seq<LedgerEntry>) {
    forall i, j | 0 <= i < j < |ledger| && IsKora(ledger[i].reference) ::
      ledger[i].reference != ledger[j].reference
  }

  lemma AppendPostings(ledger: seq<LedgerEntry>, e: LedgerEntry)
    ensures KoraPostings(ledger + [e]) == KoraPostings(ledger) + (if IsKora(e.reference) then {PostingOf(e)} else {})
  {
    var l' := ledger + [e];
    assert l'[|ledger|] == e;
    forall x | x in ledger ensures x in l' {
      var i :| 0 <= i < |ledger| && ledger[i] == x;
      assert l'[i] == x;
    }
  }
}
