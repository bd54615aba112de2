/** Exactly when a handler of a verified event raises, and which columns it writes when it does not, in terms of the rows. */
module KoraOutcomes {
  import opened Wrappers
  import opened KoraTables
  import opened KoraStatus
  import opened KoraWebhooks
  import opened KoraSystem
  import opened KoraDelivery
  import opened KoraInbox
  import Reconciliation

  // ----- Which payment an event names -----

  /** An AFM payment that has the reference in one of its three reference columns. */
  predicate Carries(t: Tables, id: nat, reference: string) {
    && id in t.transactions
    && t.transactions[id].ledgerNamespace == "afm_payments"
    && (t.transactions[id].idempotencyKey == reference
        || t.transactions[id].pspTransactionId == reference
        || t.transactions[id].pspPaymentReference == reference)
  }

  ghost predicate OnlyCarrier(t: Tables, id: nat, reference: string) {
    Carries(t, id, reference) && forall o | Carries(t, o, reference) :: o == id
  }

  ghost predicate CarriedTwice(t: Tables, reference: string) {
    exists i, j :: i != j && Carries(t, i, reference) && Carries(t, j, reference)
  }

  ghost predicate Uncarried(t: Tables, reference: string) {
    forall id :: !Carries(t, id, reference)
  }

  lemma LookupMeaning(t: Tables, reference: string)
    ensures FindTransaction(t.transactions, reference).Missing? <==> Uncarried(t, reference)
    ensures FindTransaction(t.transactions, reference).Ambiguous? <==> CarriedTwice(t, reference)
    ensures forall id :: FindTransaction(t.transactions, reference) == Found(id) <==> OnlyCarrier(t, id, reference)
  {
    assert forall id | id in t.transactions :: Refers(t.transactions[id], reference) <==> Carries(t, id, reference);
    var found := FindTransaction(t.transactions, reference);
    if found.Ambiguous? {
      var i, j :| i in t.transactions && j in t.transactions && i != j
        && Refers(t.transactions[i], reference) && Refers(t.transactions[j], reference);
      assert Carries(t, i, reference) && Carries(t, j, reference);
    }
  }

  /** The three fields an event may name its payment by, in their order. */
  predicate Names(data: KoraData, reference: string) {
    || (reference == data.reference && data.reference != "")
    || (reference == data.transactionReference && data.transactionReference != "" && data.reference == "")
    || (reference == data.paymentReference && data.paymentReference != "" && data.reference == "" && data.transactionReference == "")
  }

  predicate NamesNothing(data: KoraData) {
    data.reference == "" && data.transactionReference == "" && data.paymentReference == ""
  }

  lemma EventReferenceMeaning(data: KoraData)
    ensures EventReference(data) == "" <==> NamesNothing(data)
    ensures !NamesNothing(data) ==> Names(data, EventReference(data))
    ensures forall r :: Names(data, r) ==> r == EventReference(data)
  {
  }

  predicate PostedTwice(ledger: seq<LedgerEntry>, reference: Reference) {
    exists i, j | 0 <= i < j < |ledger| :: ledger[i].reference == reference && ledger[j].reference == reference
  }

  // ----- When a payment event raises -----

  /** A payment event raises if and only if it names nothing, or two AFM payments carry its reference, or it is a payout
      that none carries, or its debit is already posted several times. */
  lemma PaymentEventRaisesIff(t: Tables, payout: bool, data: KoraData, outcome: Outcome, now: Time, uuid: nat)
    ensures PaymentEvent(t, payout, data, outcome, now, uuid).Failure? <==>
              || NamesNothing(data)
              || exists reference | Names(data, reference) ::
                   || CarriedTwice(t, reference)
                   || (payout && Uncarried(t, reference))
                   || (payout && outcome.Succeeded? && PostedTwice(t.ledger, KoraPayout(reference))
                       && exists id | OnlyCarrier(t, id, reference) :: t.transactions[id].account.Some?)
  {
    var reference := EventReference(data);
    EventReferenceMeaning(data);
    LookupMeaning(t, reference);
    var found := FindTransaction(t.transactions, reference);
    if found.Found? {
      assert OnlyCarrier(t, found.id, reference);
    }
  }

  // ----- What a payment event writes -----

  predicate SameBut(x: map<nat, Transaction>, y: map<nat, Transaction>, id: nat) {
    y.Keys == x.Keys && forall o | o in x && o != id :: y[o] == x[o]
  }

  /** A payment event that returns writes the one payment that carries its reference: the instant of the webhook always,
      the status by the verdict, the settlement instant on success alone. Without such a payment it writes nothing. */
  lemma PaymentEventWrites(t: Tables, payout: bool, data: KoraData, outcome: Outcome, now: Time, uuid: nat, reference: string)
    requires PaymentEvent(t, payout, data, outcome, now, uuid).Success? && Names(data, reference)
    ensures var t' := PaymentEvent(t, payout, data, outcome, now, uuid).value;
            && (Uncarried(t, reference) ==> t' == t)
            && (forall id | OnlyCarrier(t, id, reference) ::
                  && SameBut(t.transactions, t'.transactions, id)
                  && t'.transactions[id] == t.transactions[id].(
                       webhookReceivedAt := Some(now),
                       status := if outcome.Succeeded? then Completed else if outcome.Refused? then Failed else Processing,
                       settledAt := if outcome.Succeeded? then Some(now) else t.transactions[id].settledAt)
                  && t'.refunds == t.refunds && t'.events == t.events
                  && (outcome.Intermediate? ==>
                        && t'.ledger == t.ledger
                        && t'.tasks == t.tasks[id := Reconciliation.EnqueuedTask(Reconciliation.TaskOf(t, id), t.transactions[id], data, now)])
                  && (!outcome.Intermediate? ==> t'.tasks == t.tasks)
                  && (outcome.Refused? ==> t'.ledger == t.ledger))
  {
    EventReferenceMeaning(data);
    LookupMeaning(t, reference);
  }

  /** The debit of a settled payout: the payment's amount and currency, from its account, under the event's reference, at
      the handler's instant. */
  lemma PayoutDebit(t: Tables, data: KoraData, now: Time, uuid: nat, reference: string, id: nat)
    requires Names(data, reference) && OnlyCarrier(t, id, reference) && t.transactions[id].account.Some?
    requires !HasEntry(t.ledger, KoraPayout(reference))
    ensures var r := PaymentEvent(t, true, data, Succeeded, now, uuid);
            var txn := t.transactions[id];
            r.Success? && r.value.ledger == t.ledger + [LedgerEntry(uuid, txn.account.value, Debit, txn.amount, txn.currency, KoraPayout(reference), now)]
  {
    EventReferenceMeaning(data);
    LookupMeaning(t, reference);
  }

  // ----- When a refund event raises, and what it writes -----

  predicate Matches(r: Refund, data: KoraData) {
    r.refundReference == data.reference || r.paymentReference == data.paymentReference
  }

  predicate NewestMatch(refunds: seq<Refund>, i: nat, data: KoraData) {
    i < |refunds| && Matches(refunds[i], data) && forall j | i < j < |refunds| :: !Matches(refunds[j], data)
  }

  predicate HasAfmParent(t: Tables, r: Refund) {
    r.transactionId in t.transactions && t.transactions[r.transactionId].ledgerNamespace == "afm_payments"
  }

  lemma NewestIsFound(refunds: seq<Refund>, data: KoraData, i: nat)
    requires NewestMatch(refunds, i, data)
    ensures LatestRefund(refunds, data.reference, data.paymentReference) == Some(i)
  {
    var r := LatestRefund(refunds, data.reference, data.paymentReference);
    assert NamesRefund(refunds[i], data.reference, data.paymentReference);
    assert forall j | i < j < |refunds| :: !Matches(refunds[j], data);
    assert r.Some? && !(r.value < i);
    assert Matches(refunds[r.value], data);
  }

  lemma FoundIsNewest(refunds: seq<Refund>, data: KoraData)
    ensures var r := LatestRefund(refunds, data.reference, data.paymentReference);
            && (r.Some? ==> NewestMatch(refunds, r.value, data))
            && (r.None? <==> forall i | 0 <= i < |refunds| :: !Matches(refunds[i], data))
  {
    assert forall i | 0 <= i < |refunds| :: NamesRefund(refunds[i], data.reference, data.paymentReference) <==> Matches(refunds[i], data);
  }

  lemma NewestMeaning(refunds: seq<Refund>, data: KoraData)
    ensures var r := LatestRefund(refunds, data.reference, data.paymentReference);
            && (r.None? <==> forall i | 0 <= i < |refunds| :: !Matches(refunds[i], data))
            && (forall i: nat :: r == Some(i) <==> NewestMatch(refunds, i, data))
  {
    FoundIsNewest(refunds, data);
    forall i: nat | NewestMatch(refunds, i, data) ensures LatestRefund(refunds, data.reference, data.paymentReference) == Some(i) {
      NewestIsFound(refunds, data, i);
    }
  }

  /** A refund event raises if and only if it lacks a reference, or no refund matches, or the newest match has no AFM
      payment, or its debit is already posted several times. */
  lemma RefundEventRaisesIff(t: Tables, data: KoraData, outcome: Outcome, now: Time, uuid: nat)
    ensures RefundEvent(t, data, outcome, now, uuid).Failure? <==>
              || data.reference == "" || data.paymentReference == ""
              || (forall i | 0 <= i < |t.refunds| :: !Matches(t.refunds[i], data))
              || exists i: nat | NewestMatch(t.refunds, i, data) ::
                   || !HasAfmParent(t, t.refunds[i])
                   || (outcome.Succeeded? && t.transactions[t.refunds[i].transactionId].account.Some?
                       && PostedTwice(t.ledger, KoraRefund(t.refunds[i].refundReference)))
  {
    NewestMeaning(t.refunds, data);
    var r := LatestRefund(t.refunds, data.reference, data.paymentReference);
    if r.Some? {
      assert NewestMatch(t.refunds, r.value, data);
    }
  }

  /** A refund event that returns writes the newest match: its status by the verdict, completed_at on success alone, and
      on success its payment turns refunded. Nothing else changes but the ledger. */
  lemma RefundEventWrites(t: Tables, data: KoraData, outcome: Outcome, now: Time, uuid: nat, i: nat)
    requires RefundEvent(t, data, outcome, now, uuid).Success? && NewestMatch(t.refunds, i, data)
    ensures var t' := RefundEvent(t, data, outcome, now, uuid).value;
            var parent := t.refunds[i].transactionId;
            && t'.refunds == t.refunds[i := t.refunds[i].(
                 status := if outcome.Succeeded? then "success" else if outcome.Refused? then "failed" else "processing",
                 completedAt := if outcome.Succeeded? then Some(now) else t.refunds[i].completedAt)]
            && parent in t.transactions && SameBut(t.transactions, t'.transactions, parent)
            && t'.transactions[parent] == t.transactions[parent].(status := if outcome.Succeeded? then Refunded else t.transactions[parent].status)
            && t'.tasks == t.tasks && t'.events == t.events && (!outcome.Succeeded? ==> t'.ledger == t.ledger)
  {
    NewestMeaning(t.refunds, data);
  }

  /** The debit of a completed refund. */
  lemma RefundDebit(t: Tables, data: KoraData, now: Time, uuid: nat, i: nat)
    requires data.reference != "" && data.paymentReference != "" && NewestMatch(t.refunds, i, data)
    requires HasAfmParent(t, t.refunds[i]) && t.transactions[t.refunds[i].transactionId].account.Some?
    requires !HasEntry(t.ledger, KoraRefund(t.refunds[i].refundReference))
    ensures var r := RefundEvent(t, data, Succeeded, now, uuid);
            var refund := t.refunds[i];
            && r.Success?
            && r.value.ledger == t.ledger + [LedgerEntry(uuid, t.transactions[refund.transactionId].account.value, Debit,
                                                         refund.amount, refund.currency, KoraRefund(refund.refundReference), now)]
  {
    NewestMeaning(t.refunds, data);
  }

  // ----- Deliveries -----

  /** A payment event: its kind begins with no refund word. */
  predicate IsPaymentKind(kind: string, payout: bool) {
    && !Begins(kind, "refund")
    && (payout <==> Begins(kind, "transfer") || Begins(kind, "payout") || Begins(kind, "disbursement"))
  }

  /** A new payout event that no AFM payment carries is answered with an error; its row reads failed and no business
      table changes. */
  lemma UnmatchedPayoutFails(t: Tables, e: Event, now: Time, uuid: nat, reference: string)
    requires e.id !in t.events && IsPaymentKind(e.kind, true) && Names(e.data, reference) && Uncarried(t, reference)
    ensures Delivered(t, e, now, uuid) == (ServerError, t.(events := t.events[e.id := EventRow(e, EventFailed)]))
  {
    KindsByWord(e.kind);
    EventReferenceMeaning(e.data);
    LookupMeaning(Inserted(t, e), reference);
    assert Uncarried(Inserted(t, e), reference) by {
      assert forall id :: Carries(Inserted(t, e), id, reference) <==> Carries(t, id, reference);
    }
    assert t.events[e.id := EventRow(e, Received)][e.id := EventRow(e, EventFailed)] == t.events[e.id := EventRow(e, EventFailed)];
  }

  /** A new pay-in event that no AFM payment carries is accepted; its row reads processed and no business table changes. */
  lemma UnmatchedPayInPasses(t: Tables, e: Event, now: Time, uuid: nat, reference: string)
    requires e.id !in t.events && IsPaymentKind(e.kind, false) && Names(e.data, reference) && Uncarried(t, reference)
    ensures Delivered(t, e, now, uuid) == (Accepted, t.(events := t.events[e.id := EventRow(e, Processed)]))
  {
    KindsByWord(e.kind);
    EventReferenceMeaning(e.data);
    LookupMeaning(Inserted(t, e), reference);
    assert Uncarried(Inserted(t, e), reference) by {
      assert forall id :: Carries(Inserted(t, e), id, reference) <==> Carries(t, id, reference);
    }
    assert t.events[e.id := EventRow(e, Received)][e.id := EventRow(e, Processed)] == t.events[e.id := EventRow(e, Processed)];
  }

  /** A new delivery is accepted or fails with its handler, and its row and its answer say which. */
  lemma DeliveryTellsOutcome(t: Tables, e: Event, now: Time, uuid: nat)
    requires e.id !in t.events
    ensures var (ack, t') := Delivered(t, e, now, uuid);
            var raises := BusinessEvent(Inserted(t, e), e, now, uuid).Failure?;
            && e.id in t'.events && t'.events[e.id] == EventRow(e, if raises then EventFailed else Processed)
            && ack == (if raises then ServerError else Accepted)
            && (raises ==> t' == t.(events := t'.events))
            && (forall id | id in t.events :: id in t'.events && t'.events[id] == t.events[id])
  {
    if BusinessEvent(Inserted(t, e), e, now, uuid).Success? {
      BusinessFrame(Inserted(t, e), e, now, uuid);
    }
  }

  /** After any run an event delivered again is answered as processed if and only if its first delivery committed; it
      then changes nothing. */
  lemma RedeliveryAnswer(s: State, steps: seq<Step>, e: Event, now: Time, uuid: nat)
    requires InboxInv(s) && IsRun(s, steps) && e.id !in s.db.events
    ensures var t := Run(s, steps).db;
            && (Delivered(t, e, now, uuid).0 == AlreadySeen(Processed) <==> FirstDeliveryCommits(s, steps, e.id))
            && (e.id in t.events ==> Delivered(t, e, now, uuid) == (AlreadySeen(t.events[e.id].status), t))
  {
    ProcessedIffFirstDeliveryCommits(s, steps, e.id);
  }
}
