/** api_gateway/main.py:1737-1910, the business part of a verified Kora delivery. A handler that raises
    is rolled back by its caller, so a Failure here leaves the tables as they were. */
module KoraWebhooks {
  import opened Wrappers
  import opened KoraTables
  import opened KoraStatus
  import Reconciliation

  // ----- Payment events -----

  function EventReference(data: KoraData): string {
    if data.reference != "" then data.reference
    else if data.transactionReference != "" then data.transactionReference
    else data.paymentReference
  }

  /** The where-clause of the transaction query. */
  predicate Refers(txn: Transaction, reference: string) {
    && txn.ledgerNamespace == AFM_PAYMENTS
    && (txn.idempotencyKey == reference || txn.pspTransactionId == reference || txn.pspPaymentReference == reference)
  }

  datatype Lookup = Missing | Found(id: nat) | Ambiguous

  /** scalar_one_or_none over the payments a reference selects. */
  ghost function FindTransaction(transactions: map<nat, Transaction>, reference: string): (r: Lookup)
    ensures r.Found? ==> r.id in transactions && Refers(transactions[r.id], reference)
    ensures r.Found? ==> forall o | o in transactions && Refers(transactions[o], reference) :: o == r.id
    ensures r.Missing? <==> forall o | o in transactions :: !Refers(transactions[o], reference)
    ensures r.Ambiguous? ==> exists i, j | i in transactions && j in transactions ::
              i != j && Refers(transactions[i], reference) && Refers(transactions[j], reference)
  {
    if forall o | o in transactions :: !Refers(transactions[o], reference) then Missing
    else
      var id :| id in transactions && Refers(transactions[id], reference);
      if forall o | o in transactions && Refers(transactions[o], reference) :: o == id then Found(id) else Ambiguous
  }

  function PayoutEntry(uuid: nat, account: nat, txn: Transaction, reference: string, now: Time): LedgerEntry {
    LedgerEntry(uuid, account, Debit, txn.amount, txn.currency, KoraPayout(reference), now)
  }

  /** Adds an entry unless its reference is already posted; raises when it is posted several times. */
  function PostOnce(t: Tables, e: LedgerEntry): Result<Tables> {
    if HasSeveralEntries(t.ledger, e.reference) then Failure("multiple rows were found")
    else if HasEntry(t.ledger, e.reference) then Success(t)
    else Success(t.(ledger := t.ledger + [e]))
  }

  ghost function PaymentEvent(t: Tables, payout: bool, data: KoraData, outcome: Outcome, now: Time, uuid: nat): Result<Tables> {
    var reference := EventReference(data);
    if reference == "" then Failure("missing a transaction reference")
    else match FindTransaction(t.transactions, reference)
      case Ambiguous => Failure("multiple rows were found")
      case Missing => if payout then Failure("reference does not match an AFM transaction") else Success(t)
      case Found(id) =>
        var txn := t.transactions[id].(webhookReceivedAt := Some(now));
        match outcome
        case Succeeded =>
          var t1 := t.(transactions := t.transactions[id := txn.(status := Completed, settledAt := Some(now))]);
          if payout && txn.account.Some?
          then PostOnce(t1, PayoutEntry(uuid, txn.account.value, txn, reference, now))
          else Success(t1)
        case Refused =>
          Success(t.(transactions := t.transactions[id := txn.(status := Failed)]))
        case Intermediate =>
          var t1 := t.(transactions := t.transactions[id := txn.(status := Processing)]);
          Success(Reconciliation.Enqueue(t1, id, data, now))
  }

  // ----- Refund events -----

  predicate NamesRefund(r: Refund, refundReference: string, paymentReference: string) {
    r.refundReference == refundReference || r.paymentReference == paymentReference
  }

  /** The most recently created refund matching either reference. */
  function LatestRefund(refunds: seq<Refund>, refundReference: string, paymentReference: string): (r: Option<nat>)
    ensures r.None? <==> forall i | 0 <= i < |refunds| :: !NamesRefund(refunds[i], refundReference, paymentReference)
    ensures r.Some? ==>
              && r.value < |refunds| && NamesRefund(refunds[r.value], refundReference, paymentReference)
              && forall i | r.value < i < |refunds| :: !NamesRefund(refunds[i], refundReference, paymentReference)
  {
    if refunds == [] then None
    else if NamesRefund(refunds[|refunds| - 1], refundReference, paymentReference) then Some(|refunds| - 1)
    else LatestRefund(refunds[..|refunds| - 1], refundReference, paymentReference)
  }

  function RefundEntry(uuid: nat, account: nat, refund: Refund, now: Time): LedgerEntry {
    LedgerEntry(uuid, account, Debit, refund.amount, refund.currency, KoraRefund(refund.refundReference), now)
  }

  function RefundEvent(t: Tables, data: KoraData, outcome: Outcome, now: Time, uuid: nat): Result<Tables> {
    if data.reference == "" || data.paymentReference == "" then Failure("missing refund or payment reference")
    else match LatestRefund(t.refunds, data.reference, data.paymentReference)
      case None => Failure("reference does not match an AFM refund")
      case Some(i) =>
        var refund := t.refunds[i];
        var parent := refund.transactionId;
        if parent !in t.transactions || t.transactions[parent].ledgerNamespace != AFM_PAYMENTS
        then Failure("parent transaction is outside AFM payment ledger")
        else
          var txn := t.transactions[parent];
          match outcome
          case Succeeded =>
            var t1 := t.(refunds := t.refunds[i := refund.(status := "success", completedAt := Some(now))],
                         transactions := t.transactions[parent := txn.(status := Refunded)]);
            if txn.account.Some? then PostOnce(t1, RefundEntry(uuid, txn.account.value, refund, now)) else Success(t1)
          case Refused => Success(t.(refunds := t.refunds[i := refund.(status := "failed")]))
          case Intermediate => Success(t.(refunds := t.refunds[i := refund.(status := "processing")]))
  }

  ghost function BusinessEvent(t: Tables, e: Event, now: Time, uuid: nat): Result<Tables> {
    if IsRefundEvent(e.kind) then RefundEvent(t, e.data, WebhookOutcome(e.data.status), now, uuid)
    else PaymentEvent(t, IsPayoutEvent(e.kind), e.data, WebhookOutcome(e.data.status), now, uuid)
  }

  // ----- The handlers, statement by statement -----

  lemma SeveralIffTwoMembers(s: set<nat>)
    ensures |s| > 1 <==> exists i, j | i in s && j in s :: i < j
  {
    if |s| > 1 {
      var i :| i in s;
      assert |s - {i}| > 0;
      var j :| j in s - {i};
      assert i < j || j < i;
    }
    if i, j :| i in s && j in s && i < j {
      assert {i, j} <= s;
      assert |s - {i, j}| == |s| - |{i, j}|;
    }
  }

  method MatchTransaction(db: Database, reference: string) returns (found: Lookup)
    ensures found == FindTransaction(db.transactions, reference)
  {
    var ids := set id | id in db.transactions && Refers(db.transactions[id], reference);
    if ids == {} {
      assert forall o | o in db.transactions && Refers(db.transactions[o], reference) :: o in ids;
      return Missing;
    }
    SeveralIffTwoMembers(ids);
    var id :| id in ids;
    assert forall o | o in db.transactions && Refers(db.transactions[o], reference) :: o in ids;
    if |ids| > 1 {
      found := Ambiguous;
      var i, j :| i in ids && j in ids && i < j;
      assert FindTransaction(db.transactions, reference).Ambiguous?;
    } else {
      found := Found(id);
      assert forall o | o in ids :: !(o < id) && !(id < o);
    }
  }

  /** Returns None when the entry is in the ledger afterwards, Some(error) when the query raised. */
  method AddEntryOnce(db: Database, e: LedgerEntry) returns (error: Option<string>)
    modifies db
    ensures match PostOnce(old(db.View()), e)
            case Success(t) => error.None? && db.View() == t
            case Failure(reason) => error == Some(reason) && db.View() == old(db.View())
  {
    var existing := set i | 0 <= i < |db.ledger| && db.ledger[i].reference == e.reference;
    SeveralIffTwoMembers(existing);
    assert forall i | 0 <= i < |db.ledger| && db.ledger[i].reference == e.reference :: i in existing;
    if |existing| > 1 {
      return Some("multiple rows were found");
    }
    if existing == {} {
      db.ledger := db.ledger + [e];
    } else {
      var i :| i in existing;
      assert HasEntry(db.ledger, e.reference);
    }
    error := None;
  }

  /** process_kora_webhook_business_event. An error may leave rows half changed; the caller rolls back. */
  method ProcessBusinessEvent(db: Database, e: Event, now: Time, uuid: nat) returns (error: Option<string>)
    modifies db
    ensures match BusinessEvent(old(db.View()), e, now, uuid)
            case Success(t) => error.None? && db.View() == t
            case Failure(reason) => error == Some(reason)
  {
    if IsRefundEvent(e.kind) {
      error := ProcessRefundWebhook(db, e.data, now, uuid);
      return;
    }
    var data := e.data;
    var reference := EventReference(data);
    if reference == "" {
      return Some("missing a transaction reference");
    }
    var found := MatchTransaction(db, reference);
    if found.Ambiguous? {
      return Some("multiple rows were found");
    }
    if found.Missing? {
      return if IsPayoutEvent(e.kind) then Some("reference does not match an AFM transaction") else None;
    }
    var id := found.id;
    var transaction := db.transactions[id];
    transaction := transaction.(webhookReceivedAt := Some(now));
    var outcome := WebhookOutcome(data.status);
    if outcome.Succeeded? {
      transaction := transaction.(status := Completed);
      transaction := transaction.(settledAt := Some(now));
      db.transactions := db.transactions[id := transaction];
      if IsPayoutEvent(e.kind) && transaction.account.Some? {
        error := AddEntryOnce(db, PayoutEntry(uuid, transaction.account.value, transaction, reference, now));
        return;
      }
    } else if outcome.Refused? {
      transaction := transaction.(status := Failed);
      db.transactions := db.transactions[id := transaction];
    } else {
      transaction := transaction.(status := Processing);
      db.transactions := db.transactions[id := transaction];
      Reconciliation.EnqueueReconciliation(db, id, data, now);
    }
    error := None;
  }

  method ProcessRefundWebhook(db: Database, data: KoraData, now: Time, uuid: nat) returns (error: Option<string>)
    modifies db
    ensures match RefundEvent(old(db.View()), data, WebhookOutcome(data.status), now, uuid)
            case Success(t) => error.None? && db.View() == t
            case Failure(reason) => error == Some(reason)
  {
    if data.reference == "" || data.paymentReference == "" {
      return Some("missing refund or payment reference");
    }
    var latest := LatestRefund(db.refunds, data.reference, data.paymentReference);
    if latest.None? {
      return Some("reference does not match an AFM refund");
    }
    var i := latest.value;
    var refund := db.refunds[i];
    var parent := refund.transactionId;
    if parent !in db.transactions || db.transactions[parent].ledgerNamespace != AFM_PAYMENTS {
      return Some("parent transaction is outside AFM payment ledger");
    }
    var transaction := db.transactions[parent];
    var outcome := WebhookOutcome(data.status);
    if outcome.Succeeded? {
      refund := refund.(status := "success");
      refund := refund.(completedAt := Some(now));
      db.refunds := db.refunds[i := refund];
      db.transactions := db.transactions[parent := transaction.(status := Refunded)];
      if transaction.account.Some? {
        error := AddEntryOnce(db, RefundEntry(uuid, transaction.account.value, refund, now));
        return;
      }
    } else if outcome.Refused? {
      db.refunds := db.refunds[i := refund.(status := "failed")];
    } else {
      db.refunds := db.refunds[i := refund.(status := "processing")];
    }
    error := None;
  }
}
