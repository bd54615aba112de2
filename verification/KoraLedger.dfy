/** What the ledger holds after any run: one posting per settled reference, whatever the order, the repetitions,
    the concurrent refund commands and the crashes. */
module KoraLedger {
  import opened Wrappers
  import opened KoraTables
  import opened KoraStatus
  import opened KoraWebhooks
  import opened KoraSystem
  import Reconciliation

  // ----- What an event settles -----

  /** The posting a verified event calls for: a success that matches one record with a virtual account. */
  ghost function PayoutSettlement(t: Tables, data: KoraData, outcome: Outcome): Option<Posting> {
    var reference := EventReference(data);
    var found := FindTransaction(t.transactions, reference);
    if reference != "" && outcome.Succeeded? && found.Found? && t.transactions[found.id].account.Some? then
      var txn := t.transactions[found.id];
      Some(Posting(KoraPayout(reference), txn.account.value, txn.amount, txn.currency))
    else None
  }

  ghost function RefundSettlement(t: Tables, data: KoraData, outcome: Outcome): Option<Posting> {
    var found := LatestRefund(t.refunds, data.reference, data.paymentReference);
    if data.reference != "" && data.paymentReference != "" && outcome.Succeeded? && found.Some? then
      var r := t.refunds[found.value];
      if r.transactionId in t.transactions && t.transactions[r.transactionId].ledgerNamespace == AFM_PAYMENTS
         && t.transactions[r.transactionId].account.Some?
      then Some(Posting(KoraRefund(r.refundReference), t.transactions[r.transactionId].account.value, r.amount, r.currency))
      else None
    else None
  }

  ghost function Settlement(t: Tables, e: Event): Option<Posting> {
    if IsRefundEvent(e.kind) then RefundSettlement(t, e.data, WebhookOutcome(e.data.status))
    else if IsPayoutEvent(e.kind) then PayoutSettlement(t, e.data, WebhookOutcome(e.data.status))
    else None
  }

  function AsSet(p: Option<Posting>): set<Posting> {
    if p.Some? then {p.value} else {}
  }

  // ----- The ledger invariant -----

  predicate RefundReferencesUnique(refunds: seq<Refund>) {
    forall i, j | 0 <= i < j < |refunds| :: refunds[i].refundReference != refunds[j].refundReference
  }

  predicate PayoutBacked(transactions: map<nat, Transaction>, p: Posting, id: nat, reference: string) {
    && id in transactions && reference != "" && Refers(transactions[id], reference)
    && transactions[id].account == Some(p.account) && transactions[id].amount == p.amount && transactions[id].currency == p.currency
  }

  predicate RefundBacked(t: Tables, p: Posting, i: int, reference: string) {
    && 0 <= i < |t.refunds| && t.refunds[i].refundReference == reference
    && t.refunds[i].amount == p.amount && t.refunds[i].currency == p.currency
    && t.refunds[i].transactionId in t.transactions
    && t.transactions[t.refunds[i].transactionId].account == Some(p.account)
  }

  /** A Kora posting repeats the amount, currency and account of the payment or refund its reference names. */
  ghost predicate Backed(t: Tables, p: Posting) {
    match p.reference
    case ToTransaction(_) => true
    case KoraPayout(reference) => exists id :: PayoutBacked(t.transactions, p, id, reference)
    case KoraRefund(reference) => exists i :: RefundBacked(t, p, i, reference)
  }

  ghost predicate LedgerInv(t: Tables) {
    && KoraReferencesUnique(t.ledger)
    && RefundReferencesUnique(t.refunds)
    && (forall e | e in t.ledger && IsKora(e.reference) :: e.direction.Debit?)
    && (forall p | p in KoraPostings(t.ledger) :: Backed(t, p))
  }

  /** Backing survives every change of mutable columns and every new row. */
  lemma BackedStays(t: Tables, t': Tables, p: Posting)
    requires PaymentsExtend(t.transactions, t'.transactions) && RefundsExtend(t.refunds, t'.refunds)
    requires Backed(t, p)
    ensures Backed(t', p)
  {
    match p.reference {
      case KoraPayout(reference) =>
        var id :| PayoutBacked(t.transactions, p, id, reference);
        assert PaymentIdentity(t'.transactions[id]) == PaymentIdentity(t.transactions[id]);
        assert PayoutBacked(t'.transactions, p, id, reference);
      case KoraRefund(reference) =>
        var i :| RefundBacked(t, p, i, reference);
        assert RefundIdentity(t'.refunds[i]) == RefundIdentity(t.refunds[i]);
        var id := t.refunds[i].transactionId;
        assert PaymentIdentity(t'.transactions[id]) == PaymentIdentity(t.transactions[id]);
        assert RefundBacked(t', p, i, reference);
      case _ =>
    }
  }

  // ----- One business transaction -----

  /** An unposted entry is appended, a posted one is left, and a unique ledger never raises. */
  lemma PostOnceEffect(t: Tables, e: LedgerEntry)
    requires KoraReferencesUnique(t.ledger) && IsKora(e.reference)
    ensures var r := PostOnce(t, e);
            && r.Success?
            && r.value == t.(ledger := if HasEntry(t.ledger, e.reference) then t.ledger else t.ledger + [e])
            && KoraReferencesUnique(r.value.ledger)
  {
  }

  /** Two postings of one reference, both backed by the same tables, are the same posting. */
  lemma PostedAlready(t: Tables, p: Posting)
    requires LedgerInv(t) && IsKora(p.reference) && HasEntry(t.ledger, p.reference)
    requires match p.reference
             case KoraPayout(reference) =>
               var found := FindTransaction(t.transactions, reference);
               found.Found? && PayoutBacked(t.transactions, p, found.id, reference)
             case KoraRefund(reference) => exists i :: RefundBacked(t, p, i, reference)
    ensures p in KoraPostings(t.ledger)
  {
    var i :| 0 <= i < |t.ledger| && t.ledger[i].reference == p.reference;
    var q := PostingOf(t.ledger[i]);
    assert q in KoraPostings(t.ledger) && Backed(t, q);
    if p.reference.KoraPayout? {
      var id :| PayoutBacked(t.transactions, q, id, p.reference.reference);
    } else {
      var j :| RefundBacked(t, p, j, p.reference.refundReference);
      var k :| RefundBacked(t, q, k, p.reference.refundReference);
      assert j == k;
    }
  }

  /** Posting one settlement keeps the invariant and adds exactly that settlement. */
  lemma PostSettles(t: Tables, t1: Tables, e: LedgerEntry)
    requires LedgerInv(t) && LedgerInv(t1) && t1.ledger == t.ledger
    requires IsKora(e.reference) && e.direction.Debit? && Backed(t1, PostingOf(e))
    requires HasEntry(t.ledger, e.reference) ==> PostingOf(e) in KoraPostings(t.ledger)
    ensures var r := PostOnce(t1, e);
            r.Success? && LedgerInv(r.value) && KoraPostings(r.value.ledger) == KoraPostings(t.ledger) + {PostingOf(e)}
  {
    PostOnceEffect(t1, e);
    AppendPostings(t.ledger, e);
    var t2 := PostOnce(t1, e).value;
    forall p | p in KoraPostings(t2.ledger) ensures Backed(t2, p) {
      BackedStays(t1, t2, p);
    }
  }

  /** Changes outside the ledger keep its invariant. */
  lemma InvStays(t: Tables, t': Tables)
    requires LedgerInv(t) && t'.ledger == t.ledger
    requires PaymentsExtend(t.transactions, t'.transactions) && RefundsExtend(t.refunds, t'.refunds)
    requires RefundReferencesUnique(t'.refunds)
    ensures LedgerInv(t')
  {
    forall p | p in KoraPostings(t.ledger) ensures Backed(t', p) {
      BackedStays(t, t', p);
    }
  }

  /** Identical identities keep refund references unique. */
  lemma UniqueStays(x: seq<Refund>, y: seq<Refund>)
    requires RefundReferencesUnique(x) && |x| == |y| && RefundsExtend(x, y)
    ensures RefundReferencesUnique(y)
  {
    forall i, j | 0 <= i < j < |y| ensures y[i].refundReference != y[j].refundReference {
      assert RefundIdentity(y[i]) == RefundIdentity(x[i]) && RefundIdentity(y[j]) == RefundIdentity(x[j]);
    }
  }

  lemma PaymentEventPosts(t: Tables, payout: bool, data: KoraData, outcome: Outcome, now: Time, uuid: nat)
    requires LedgerInv(t)
    ensures var r := PaymentEvent(t, payout, data, outcome, now, uuid);
            var p := if payout then PayoutSettlement(t, data, outcome) else None;
            && (p.Some? ==> r.Success?)
            && (r.Success? ==> LedgerInv(r.value) && KoraPostings(r.value.ledger) == KoraPostings(t.ledger) + AsSet(p))
  {
    var r := PaymentEvent(t, payout, data, outcome, now, uuid);
    var reference := EventReference(data);
    var found := FindTransaction(t.transactions, reference);
    if payout && PayoutSettlement(t, data, outcome).Some? {
      var p := PayoutSettlement(t, data, outcome).value;
      var txn := t.transactions[found.id].(webhookReceivedAt := Some(now));
      var t1 := t.(transactions := t.transactions[found.id := txn.(status := Completed, settledAt := Some(now))]);
      InvStays(t, t1);
      var e := PayoutEntry(uuid, p.account, txn, reference, now);
      assert PayoutBacked(t.transactions, p, found.id, reference);
      BackedStays(t, t1, p);
      if HasEntry(t.ledger, e.reference) {
        PostedAlready(t, p);
      }
      PostSettles(t, t1, e);
    } else if r.Success? {
      PaymentEventFrame(t, payout, data, outcome, now, uuid);
      assert r.value.ledger == t.ledger;
      UniqueStays(t.refunds, r.value.refunds);
      InvStays(t, r.value);
    }
  }

  lemma RefundEventPosts(t: Tables, data: KoraData, outcome: Outcome, now: Time, uuid: nat)
    requires LedgerInv(t)
    ensures var r := RefundEvent(t, data, outcome, now, uuid);
            var p := RefundSettlement(t, data, outcome);
            && (p.Some? ==> r.Success?)
            && (r.Success? ==> LedgerInv(r.value) && KoraPostings(r.value.ledger) == KoraPostings(t.ledger) + AsSet(p))
  {
    var r := RefundEvent(t, data, outcome, now, uuid);
    if RefundSettlement(t, data, outcome).Some? {
      var p := RefundSettlement(t, data, outcome).value;
      var i := LatestRefund(t.refunds, data.reference, data.paymentReference).value;
      var refund := t.refunds[i];
      var txn := t.transactions[refund.transactionId];
      var t1 := t.(refunds := t.refunds[i := refund.(status := "success", completedAt := Some(now))],
                   transactions := t.transactions[refund.transactionId := txn.(status := Refunded)]);
      UniqueStays(t.refunds, t1.refunds);
      InvStays(t, t1);
      var e := RefundEntry(uuid, p.account, refund, now);
      assert RefundBacked(t, p, i, refund.refundReference);
      BackedStays(t, t1, p);
      if HasEntry(t.ledger, e.reference) {
        PostedAlready(t, p);
      }
      PostSettles(t, t1, e);
    } else if r.Success? {
      RefundEventFrame(t, data, outcome, now, uuid);
      assert r.value.ledger == t.ledger;
      UniqueStays(t.refunds, r.value.refunds);
      InvStays(t, r.value);
    }
  }

  /** A committed event posts exactly what it settles, and an event that settles something never raises. */
  lemma EventPosts(t: Tables, e: Event, now: Time, uuid: nat)
    requires LedgerInv(t)
    ensures var r := BusinessEvent(t, e, now, uuid);
            && (Settlement(t, e).Some? ==> r.Success?)
            && (r.Success? ==> LedgerInv(r.value) && KoraPostings(r.value.ledger) == KoraPostings(t.ledger) + AsSet(Settlement(t, e)))
  {
    if IsRefundEvent(e.kind) {
      RefundEventPosts(t, e.data, WebhookOutcome(e.data.status), now, uuid);
    } else {
      PaymentEventPosts(t, IsPayoutEvent(e.kind), e.data, WebhookOutcome(e.data.status), now, uuid);
    }
  }
}
