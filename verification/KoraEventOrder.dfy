/** Sequences of verified events over fixed payment and refund tables: the ledger depends only on which events
    came, the statuses depend on their order. */
module KoraEventOrder {
  import opened Wrappers
  import opened KoraTables
  import opened KoraStatus
  import opened KoraWebhooks
  import opened KoraSystem
  import opened KoraLedger

  /** An event with the instant and the row id its handler happened to draw. */
  datatype Handled = Handled(event: Event, now: Time, uuid: nat)

  /** One handler after the other; a handler that raises is rolled back. */
  ghost function Handle(t: Tables, h: Handled): Tables {
    var r := BusinessEvent(t, h.event, h.now, h.uuid);
    if r.Success? then r.value else t
  }

  ghost function HandleAll(t: Tables, hs: seq<Handled>): Tables
    decreases hs
  {
    if hs == [] then t else HandleAll(Handle(t, hs[0]), hs[1..])
  }

  function EventsOf(hs: seq<Handled>): set<Event> {
    set h | h in hs :: h.event
  }

  ghost function SettlementsOf(t: Tables, es: set<Event>): set<Posting> {
    set e | e in es && Settlement(t, e).Some? :: Settlement(t, e).value
  }

  // ----- Lookups do not depend on mutable columns -----

  predicate SameRows(t: Tables, t': Tables) {
    && t'.transactions.Keys == t.transactions.Keys && PaymentsExtend(t.transactions, t'.transactions)
    && |t'.refunds| == |t.refunds| && RefundsExtend(t.refunds, t'.refunds)
  }

  lemma SameTransactionFound(x: map<nat, Transaction>, y: map<nat, Transaction>, reference: string)
    requires y.Keys == x.Keys && PaymentsExtend(x, y)
    ensures FindTransaction(y, reference) == FindTransaction(x, reference)
  {
    assert forall id | id in x :: Refers(y[id], reference) <==> Refers(x[id], reference) by {
      forall id | id in x ensures Refers(y[id], reference) <==> Refers(x[id], reference) {
        assert PaymentIdentity(y[id]) == PaymentIdentity(x[id]);
      }
    }
  }

  lemma SameRefundFound(x: seq<Refund>, y: seq<Refund>, refundReference: string, paymentReference: string)
    requires |y| == |x| && RefundsExtend(x, y)
    ensures LatestRefund(y, refundReference, paymentReference) == LatestRefund(x, refundReference, paymentReference)
  {
    forall i | 0 <= i < |x|
      ensures NamesRefund(y[i], refundReference, paymentReference) <==> NamesRefund(x[i], refundReference, paymentReference)
    {
      assert RefundIdentity(y[i]) == RefundIdentity(x[i]);
    }
    var p, q := LatestRefund(x, refundReference, paymentReference), LatestRefund(y, refundReference, paymentReference);
    if p.Some? && q.Some? {
      assert !(p.value < q.value) && !(q.value < p.value);
    }
  }

  lemma SettlementStays(t: Tables, t': Tables, e: Event)
    requires SameRows(t, t')
    ensures Settlement(t', e) == Settlement(t, e)
  {
    SameTransactionFound(t.transactions, t'.transactions, EventReference(e.data));
    SameRefundFound(t.refunds, t'.refunds, e.data.reference, e.data.paymentReference);
    var found := FindTransaction(t.transactions, EventReference(e.data));
    if found.Found? {
      assert PaymentIdentity(t'.transactions[found.id]) == PaymentIdentity(t.transactions[found.id]);
    }
    var i := LatestRefund(t.refunds, e.data.reference, e.data.paymentReference);
    if i.Some? {
      assert RefundIdentity(t'.refunds[i.value]) == RefundIdentity(t.refunds[i.value]);
      var id := t.refunds[i.value].transactionId;
      if id in t.transactions {
        assert PaymentIdentity(t'.transactions[id]) == PaymentIdentity(t.transactions[id]);
      }
    }
  }

  lemma HandleStep(t: Tables, h: Handled)
    requires LedgerInv(t)
    ensures LedgerInv(Handle(t, h)) && SameRows(t, Handle(t, h))
    ensures KoraPostings(Handle(t, h).ledger) == KoraPostings(t.ledger) + AsSet(Settlement(t, h.event))
  {
    EventPosts(t, h.event, h.now, h.uuid);
    if BusinessEvent(t, h.event, h.now, h.uuid).Success? {
      BusinessFrame(t, h.event, h.now, h.uuid);
    }
  }

  /** The postings after any sequence are the old ones and one per settlement of an event that came at all. */
  lemma {:induction false} LedgerOfSequence(t: Tables, hs: seq<Handled>)
    requires LedgerInv(t)
    ensures LedgerInv(HandleAll(t, hs))
    ensures KoraPostings(HandleAll(t, hs).ledger) == KoraPostings(t.ledger) + SettlementsOf(t, EventsOf(hs))
    decreases hs
  {
    if hs == [] {
      assert SettlementsOf(t, EventsOf(hs)) == {};
    } else {
      var t1 := Handle(t, hs[0]);
      HandleStep(t, hs[0]);
      LedgerOfSequence(t1, hs[1..]);
      forall e | e in EventsOf(hs[1..]) ensures Settlement(t1, e) == Settlement(t, e) {
        SettlementStays(t, t1, e);
      }
      SettlementsFrom(t, t1, hs);
    }
  }

  lemma SettlementsFrom(t: Tables, t1: Tables, hs: seq<Handled>)
    requires hs != [] && forall e | e in EventsOf(hs[1..]) :: Settlement(t1, e) == Settlement(t, e)
    ensures SettlementsOf(t, EventsOf(hs)) == AsSet(Settlement(t, hs[0].event)) + SettlementsOf(t1, EventsOf(hs[1..]))
  {
    assert EventsOf(hs) == {hs[0].event} + EventsOf(hs[1..]) by {
      assert hs == [hs[0]] + hs[1..];
    }
  }

  /** Reordering and repeating deliveries changes nothing in the ledger. */
  lemma OrderAndRepetitionAreInvisible(t: Tables, hs: seq<Handled>, gs: seq<Handled>)
    requires LedgerInv(t) && EventsOf(hs) == EventsOf(gs)
    ensures KoraPostings(HandleAll(t, hs).ledger) == KoraPostings(HandleAll(t, gs).ledger)
    ensures KoraReferencesUnique(HandleAll(t, hs).ledger) && KoraReferencesUnique(HandleAll(t, gs).ledger)
  {
    LedgerOfSequence(t, hs);
    LedgerOfSequence(t, gs);
  }

  // ----- What does depend on order -----

  function SamplePayment(status: PaymentStatus): Transaction {
    Transaction(0, true, AFM_PAYMENTS, true, "afm-payout-1", "KPY-1", "", Some(7), 500, "XOF", status, None, None)
  }

  function SampleTables(status: PaymentStatus): Tables {
    Tables(map[1 := SamplePayment(status)], [], map[], [], map[])
  }

  function PayoutEvent(reference: string, status: string): Event {
    Event("", "transfer.update", KoraData(reference, "", "", status, ""))
  }

  lemma SampleLookup(status: PaymentStatus, reference: string)
    requires reference == "afm-payout-1" || reference == "KPY-1"
    ensures FindTransaction(SampleTables(status).transactions, reference) == Found(1)
  {
    var m := SampleTables(status).transactions;
    assert 1 in m && Refers(m[1], reference);
  }

  lemma Words()
    ensures IsPayoutEvent("transfer.update") && !IsRefundEvent("transfer.update")
    ensures WebhookOutcome("success").Succeeded? && WebhookOutcome("failed").Refused?
  {
    assert Lower("transfer.update") == "transfer.update";
    assert "transfer" <= "transfer.update" && !("refund" <= "transfer.update") by {
      assert "refund"[0] != "transfer.update"[0];
    }
    assert Lower("success") == "success";
    assert Lower("failed") == "failed";
  }

  function StatusOfPayment(t: Tables, id: nat): Option<PaymentStatus> {
    if id in t.transactions then Some(t.transactions[id].status) else None
  }

  // ----- The status of a payment -----

  /** The event writes the status of payment id: a payment event that finds it, or the success of a refund of it. */
  ghost predicate Writes(t: Tables, e: Event, id: nat) {
    if IsRefundEvent(e.kind) then
      && e.data.reference != "" && e.data.paymentReference != "" && WebhookOutcome(e.data.status).Succeeded?
      && id in t.transactions && t.transactions[id].ledgerNamespace == AFM_PAYMENTS
      && var i := LatestRefund(t.refunds, e.data.reference, e.data.paymentReference);
         i.Some? && t.refunds[i.value].transactionId == id
    else
      EventReference(e.data) != "" && FindTransaction(t.transactions, EventReference(e.data)) == Found(id)
  }

  /** The status such an event writes. */
  function Written(e: Event): PaymentStatus {
    if IsRefundEvent(e.kind) then Refunded
    else match WebhookOutcome(e.data.status)
      case Succeeded => Completed
      case Refused => Failed
      case Intermediate => Processing
  }

  /** The status the last writing event of a sequence writes. */
  ghost function LastWritten(t: Tables, hs: seq<Handled>, id: nat): Option<PaymentStatus>
    decreases |hs|
  {
    if hs == [] then StatusOfPayment(t, id)
    else
      var last := hs[|hs| - 1].event;
      if Writes(t, last, id) then Some(Written(last)) else LastWritten(t, hs[..|hs| - 1], id)
  }

  lemma PaymentEventStatus(t: Tables, h: Handled, id: nat)
    requires LedgerInv(t) && !IsRefundEvent(h.event.kind)
    ensures StatusOfPayment(Handle(t, h), id)
         == if Writes(t, h.event, id) then Some(Written(h.event)) else StatusOfPayment(t, id)
  {
    EventPosts(t, h.event, h.now, h.uuid);
  }

  lemma RefundEventStatus(t: Tables, h: Handled, id: nat)
    requires LedgerInv(t) && IsRefundEvent(h.event.kind)
    ensures StatusOfPayment(Handle(t, h), id)
         == if Writes(t, h.event, id) then Some(Written(h.event)) else StatusOfPayment(t, id)
  {
    EventPosts(t, h.event, h.now, h.uuid);
  }

  lemma WritesStays(t: Tables, t': Tables, e: Event, id: nat)
    requires SameRows(t, t')
    ensures Writes(t', e, id) <==> Writes(t, e, id)
  {
    SameTransactionFound(t.transactions, t'.transactions, EventReference(e.data));
    SameRefundFound(t.refunds, t'.refunds, e.data.reference, e.data.paymentReference);
    if id in t.transactions {
      assert PaymentIdentity(t'.transactions[id]) == PaymentIdentity(t.transactions[id]);
    }
    var i := LatestRefund(t.refunds, e.data.reference, e.data.paymentReference);
    if i.Some? {
      assert RefundIdentity(t'.refunds[i.value]) == RefundIdentity(t.refunds[i.value]);
    }
  }

  lemma SameRowsTransitive(x: Tables, y: Tables, z: Tables)
    requires SameRows(x, y) && SameRows(y, z)
    ensures SameRows(x, z)
  {
    forall id | id in x.transactions ensures PaymentIdentity(z.transactions[id]) == PaymentIdentity(x.transactions[id]) {
      assert PaymentIdentity(y.transactions[id]) == PaymentIdentity(x.transactions[id]);
    }
    forall i | 0 <= i < |x.refunds| ensures RefundIdentity(z.refunds[i]) == RefundIdentity(x.refunds[i]) {
      assert RefundIdentity(y.refunds[i]) == RefundIdentity(x.refunds[i]);
    }
  }

  lemma {:induction false} SequenceKeepsRows(t: Tables, hs: seq<Handled>)
    requires LedgerInv(t)
    ensures SameRows(t, HandleAll(t, hs)) && LedgerInv(HandleAll(t, hs))
    decreases hs
  {
    if hs != [] {
      HandleStep(t, hs[0]);
      SequenceKeepsRows(Handle(t, hs[0]), hs[1..]);
      SameRowsTransitive(t, Handle(t, hs[0]), HandleAll(t, hs));
    }
  }

  lemma {:induction false} HandleLast(t: Tables, hs: seq<Handled>, h: Handled)
    ensures HandleAll(t, hs + [h]) == Handle(HandleAll(t, hs), h)
    decreases hs
  {
    if hs == [] {
      assert hs + [h] == [h] && [h][1..] == [];
    } else {
      assert (hs + [h])[1..] == hs[1..] + [h];
      HandleLast(Handle(t, hs[0]), hs[1..], h);
    }
  }

  /** After any sequence of events, with any statuses and references, the status of a payment is the one written by the
      last event that writes it, and the initial one if none does. */
  lemma {:induction false} StatusIsLastWritten(t: Tables, hs: seq<Handled>, id: nat)
    requires LedgerInv(t)
    ensures StatusOfPayment(HandleAll(t, hs), id) == LastWritten(t, hs, id)
    decreases |hs|
  {
    if hs != [] {
      var init, last := hs[..|hs| - 1], hs[|hs| - 1];
      assert hs == init + [last];
      var t' := HandleAll(t, init);
      StatusIsLastWritten(t, init, id);
      SequenceKeepsRows(t, init);
      WritesStays(t, t', last.event, id);
      HandleLast(t, init, last);
      if IsRefundEvent(last.event.kind) {
        RefundEventStatus(t', last, id);
      } else {
        PaymentEventStatus(t', last, id);
      }
    }
  }

  /** Two sequences leave a payment the same status if and only if their last writing events write the same. */
  lemma SequencesAgreeIff(t: Tables, hs: seq<Handled>, gs: seq<Handled>, id: nat)
    requires LedgerInv(t)
    ensures StatusOfPayment(HandleAll(t, hs), id) == StatusOfPayment(HandleAll(t, gs), id)
       <==> LastWritten(t, hs, id) == LastWritten(t, gs, id)
  {
    StatusIsLastWritten(t, hs, id);
    StatusIsLastWritten(t, gs, id);
  }

  lemma {:induction false} LastWriterIsAnEvent(t: Tables, hs: seq<Handled>, id: nat)
    ensures if exists e | e in EventsOf(hs) :: Writes(t, e, id)
            then exists e | e in EventsOf(hs) && Writes(t, e, id) :: LastWritten(t, hs, id) == Some(Written(e))
            else LastWritten(t, hs, id) == StatusOfPayment(t, id)
    decreases |hs|
  {
    if hs != [] {
      var init, last := hs[..|hs| - 1], hs[|hs| - 1];
      assert last in hs;
      LastWriterIsAnEvent(t, init, id);
      assert EventsOf(hs) == EventsOf(init) + {last.event} by {
        assert hs == init + [last];
      }
    }
  }

  /** All writing events of a set write the same status. */
  ghost predicate WritersAgree(t: Tables, es: set<Event>, id: nat) {
    forall d, e | d in es && e in es && Writes(t, d, id) && Writes(t, e, id) :: Written(d) == Written(e)
  }

  /** Order and repetition are invisible in the status of a payment if and only if all events that write it write the
      same status. */
  lemma OrderIsInvisibleIff(t: Tables, hs: seq<Handled>, id: nat)
    requires LedgerInv(t)
    ensures (forall gs | EventsOf(gs) == EventsOf(hs) :: StatusOfPayment(HandleAll(t, gs), id) == StatusOfPayment(HandleAll(t, hs), id))
       <==> WritersAgree(t, EventsOf(hs), id)
  {
    if WritersAgree(t, EventsOf(hs), id) {
      forall gs | EventsOf(gs) == EventsOf(hs) ensures StatusOfPayment(HandleAll(t, gs), id) == StatusOfPayment(HandleAll(t, hs), id) {
        StatusIsLastWritten(t, gs, id);
        StatusIsLastWritten(t, hs, id);
        LastWriterIsAnEvent(t, gs, id);
        LastWriterIsAnEvent(t, hs, id);
      }
    } else {
      var d, e :| d in EventsOf(hs) && e in EventsOf(hs) && Writes(t, d, id) && Writes(t, e, id) && Written(d) != Written(e);
      Differently(t, hs, d, id);
      Differently(t, hs, e, id);
    }
  }

  /** A sequence of the same events that ends with a chosen writing one. */
  lemma Differently(t: Tables, hs: seq<Handled>, e: Event, id: nat)
    requires LedgerInv(t) && e in EventsOf(hs) && Writes(t, e, id)
    ensures exists gs :: EventsOf(gs) == EventsOf(hs) && StatusOfPayment(HandleAll(t, gs), id) == Some(Written(e))
  {
    var h :| h in hs && h.event == e;
    var gs := hs + [h];
    assert EventsOf(gs) == EventsOf(hs);
    assert gs[..|gs| - 1] == hs;
    StatusIsLastWritten(t, gs, id);
  }

  /** In particular the last event that writes decides, if none writes after it. */
  lemma {:induction false} LastEventDecides(t: Tables, hs: seq<Handled>, k: nat, id: nat)
    requires LedgerInv(t) && k < |hs| && Writes(t, hs[k].event, id)
    requires forall i | k < i < |hs| :: !Writes(t, hs[i].event, id)
    ensures StatusOfPayment(HandleAll(t, hs), id) == Some(Written(hs[k].event))
  {
    StatusIsLastWritten(t, hs, id);
    LastWriter(t, hs, k, id);
  }

  lemma {:induction false} LastWriter(t: Tables, hs: seq<Handled>, k: nat, id: nat)
    requires k < |hs| && Writes(t, hs[k].event, id)
    requires forall i | k < i < |hs| :: !Writes(t, hs[i].event, id)
    ensures LastWritten(t, hs, id) == Some(Written(hs[k].event))
    decreases |hs|
  {
    if k < |hs| - 1 {
      LastWriter(t, hs[..|hs| - 1], k, id);
    }
  }

  /** A success and a failure of one payout end differently in the two orders. */
  lemma StatusDependsOnOrder(now: Time, uuid: nat)
    ensures var t := SampleTables(Processing);
            var good := Handled(PayoutEvent("KPY-1", "success"), now, uuid);
            var bad := Handled(PayoutEvent("KPY-1", "failed"), now, uuid);
            && StatusOfPayment(HandleAll(t, [good, bad]), 1) == Some(Failed)
            && StatusOfPayment(HandleAll(t, [bad, good]), 1) == Some(Completed)
  {
    var t := SampleTables(Processing);
    var good := Handled(PayoutEvent("KPY-1", "success"), now, uuid);
    var bad := Handled(PayoutEvent("KPY-1", "failed"), now, uuid);
    Words();
    SampleLookup(Processing, "KPY-1");
    LastEventDecides(t, [good, bad], 1, 1);
    LastEventDecides(t, [bad, good], 1, 1);
  }
}
