/** Which refund a callback reaches. The handler takes the newest record matching the refund reference or the payment
    reference, so a later refund of the same payment shadows an earlier one. */
module KoraRefundMatching {
  import opened Wrappers
  import opened KoraTables
  import opened KoraStatus
  import opened KoraWebhooks
  import opened KoraRefunds
  import opened KoraSystem
  import opened KoraLedger

  /** A callback that names refund i by both of its references. */
  predicate Names(data: KoraData, r: Refund) {
    data.reference == r.refundReference && data.paymentReference == r.paymentReference
  }

  predicate Shadowed(refunds: seq<Refund>, i: nat)
    requires i < |refunds|
  {
    exists j | i < j < |refunds| :: refunds[j].paymentReference == refunds[i].paymentReference
  }

  /** A callback reaches the refund it names if and only if no later refund shares the payment reference. */
  lemma CallbackReachesNamedRefundIff(refunds: seq<Refund>, i: nat, data: KoraData)
    requires i < |refunds| && RefundReferencesUnique(refunds) && Names(data, refunds[i])
    ensures LatestRefund(refunds, data.reference, data.paymentReference) == Some(i) <==> !Shadowed(refunds, i)
  {
    var found := LatestRefund(refunds, data.reference, data.paymentReference);
    assert NamesRefund(refunds[i], data.reference, data.paymentReference);
    if Shadowed(refunds, i) {
      var k :| i < k < |refunds| && refunds[k].paymentReference == refunds[i].paymentReference;
      assert NamesRefund(refunds[k], data.reference, data.paymentReference);
    }
    assert i <= found.value;
    assert i < found.value ==> refunds[i].refundReference != refunds[found.value].refundReference;
  }

  predicate IsNewest(refunds: seq<Refund>, j: nat, paymentReference: string) {
    && j < |refunds| && refunds[j].paymentReference == paymentReference
    && forall k | j < k < |refunds| :: refunds[k].paymentReference != paymentReference
  }

  predicate HasAfmParent(t: Tables, r: Refund) {
    r.transactionId in t.transactions && t.transactions[r.transactionId].ledgerNamespace == AFM_PAYMENTS
  }

  /** The posting of a refund, if its payment has a virtual account. */
  function DebitOf(t: Tables, r: Refund): set<Posting>
    requires HasAfmParent(t, r)
  {
    match t.transactions[r.transactionId].account
    case None => {}
    case Some(account) => {Posting(KoraRefund(r.refundReference), account, r.amount, r.currency)}
  }

  /** The success of a shadowed refund goes to the newest refund of the payment reference: that one completes, its
      reference and its amount are posted, and the refund the callback names is left as it was. */
  lemma SuccessGoesToNewest(t: Tables, i: nat, j: nat, data: KoraData, now: Time, uuid: nat)
    requires LedgerInv(t) && i < |t.refunds| && Shadowed(t.refunds, i) && Names(data, t.refunds[i])
    requires IsNewest(t.refunds, j, t.refunds[i].paymentReference) && HasAfmParent(t, t.refunds[j])
    requires data.reference != "" && data.paymentReference != ""
    ensures var r := RefundEvent(t, data, Succeeded, now, uuid);
            && i < j && r.Success?
            && r.value.refunds == t.refunds[j := t.refunds[j].(status := "success", completedAt := Some(now))]
            && KoraPostings(r.value.ledger) == KoraPostings(t.ledger) + DebitOf(t, t.refunds[j])
  {
    NewestIsFound(t.refunds, i, j, data);
    RefundEventPosts(t, data, Succeeded, now, uuid);
    assert DebitOf(t, t.refunds[j]) == AsSet(RefundSettlement(t, data, Succeeded));
  }

  lemma LatestIs(refunds: seq<Refund>, refundReference: string, paymentReference: string, j: nat)
    requires j < |refunds| && NamesRefund(refunds[j], refundReference, paymentReference)
    requires forall k | j < k < |refunds| :: !NamesRefund(refunds[k], refundReference, paymentReference)
    ensures LatestRefund(refunds, refundReference, paymentReference) == Some(j)
  {
    var found := LatestRefund(refunds, refundReference, paymentReference);
    assert found.Some?;
    assert !(j < found.value) && !(found.value < j);
  }

  lemma NewestIsFound(refunds: seq<Refund>, i: nat, j: nat, data: KoraData)
    requires i < |refunds| && RefundReferencesUnique(refunds) && Shadowed(refunds, i) && Names(data, refunds[i])
    requires IsNewest(refunds, j, refunds[i].paymentReference)
    ensures i < j && LatestRefund(refunds, data.reference, data.paymentReference) == Some(j)
  {
    var k :| i < k < |refunds| && refunds[k].paymentReference == refunds[i].paymentReference;
    assert k <= j;
    LatestIs(refunds, data.reference, data.paymentReference, j);
  }

  /** How a refund gets shadowed: any further record of its payment reference does it. */
  lemma NextRecordShadows(t: Tables, r: Request, reply: ProviderReply, i: nat)
    requires i < |t.refunds| && MayProceed(t, r) && RecordFits(t, r)
    requires t.refunds[i].paymentReference == t.transactions[r.pathTransaction].pspTransactionId
    ensures var refunds := Commanded(t, r, reply).1.refunds;
            |refunds| == |t.refunds| + 1 && refunds[i] == t.refunds[i] && Shadowed(refunds, i)
            && IsNewest(refunds, |t.refunds|, t.refunds[i].paymentReference)
  {
    ProceedsIff(t, r);
    var refunds := Commanded(t, r, reply).1.refunds;
    assert refunds[|t.refunds|].paymentReference == refunds[i].paymentReference;
  }

  function SamplePayment(): Transaction {
    Transaction(0, true, AFM_PAYMENTS, false, "pay-1", "KPY-1", "", Some(7), 5 * CENT, "XOF", Completed, None, None)
  }

  function SampleRequest(key: string, cents: int): Request {
    Request(0, 1, 1, Some(cents * CENT), true, key, "CONFIRM", false)
  }

  /** The two refunds of the sample payment, one after the other. */
  function SampleTables(): Tables {
    var t := Tables(map[1 := SamplePayment()], [], map[], [], map[]);
    var t1 := Commanded(t, SampleRequest("refund-1", 2), Accepted("processing")).1;
    Commanded(t1, SampleRequest("refund-2", 3), Accepted("processing")).1
  }

  function SampleRefund(key: string, cents: int): Refund {
    Refund(1, RefundReference(key), key, "KPY-1", cents * CENT, "XOF", "processing", None)
  }

  lemma WholeCents(cents: int)
    ensures QuantizeCents(cents * CENT) == cents * CENT
  {
  }

  lemma SampleProceeds(t: Tables, key: string, cents: int)
    requires t.transactions == map[1 := SamplePayment()] && 1 <= cents <= 5 && Strip(key) == key && |key| >= 8
    requires forall i | 0 <= i < |t.refunds| :: t.refunds[i].idempotencyKey != key
    ensures MayProceed(t, SampleRequest(key, cents))
    ensures RequestedAmount(SampleRequest(key, cents), SamplePayment()) == cents * CENT
  {
    WholeCents(cents);
  }

  /** A command that may proceed adds its record. */
  lemma RecordAdded(t: Tables, r: Request, reply: ProviderReply)
    requires MayProceed(t, r) && RecordFits(t, r)
    ensures var txn := t.transactions[r.pathTransaction];
            Commanded(t, r, reply).1 == t.(refunds := t.refunds + [StoreReply(NewRefund(r, txn, RequestedAmount(r, txn)), reply)])
  {
    ProceedsIff(t, r);
  }

  /** A command of the sample owner under a new key adds its record, whatever refunds there are. */
  lemma SampleCommand(t: Tables, key: string, cents: int)
    requires t.transactions == map[1 := SamplePayment()] && 1 <= cents <= 5 && Strip(key) == key && |key| >= 8
    requires forall i | 0 <= i < |t.refunds| ::
               t.refunds[i].idempotencyKey != key && t.refunds[i].refundReference != RefundReference(key)
    ensures Commanded(t, SampleRequest(key, cents), Accepted("processing")).1
         == t.(refunds := t.refunds + [SampleRefund(key, cents)])
  {
    var r, reply := SampleRequest(key, cents), Accepted("processing");
    SampleProceeds(t, key, cents);
    SampleStored(key, cents);
    RecordAdded(t, r, reply);
  }

  lemma SampleStored(key: string, cents: int)
    requires Strip(key) == key
    ensures StoreReply(NewRefund(SampleRequest(key, cents), SamplePayment(), cents * CENT), Accepted("processing"))
         == SampleRefund(key, cents)
  {
    assert Lower("processing") == "processing";
  }

  lemma SampleKeys()
    ensures Strip("refund-1") == "refund-1" && Strip("refund-2") == "refund-2"
    ensures "refund-1" != "refund-2" && RefundReference("refund-1") != RefundReference("refund-2")
    ensures RefundReference("refund-1") != ""
  {
    assert "refund-1"[7] != "refund-2"[7];
    assert RefundReference("refund-1")[15] == '1' && RefundReference("refund-2")[15] == '2';
  }

  lemma SampleRecords()
    ensures SampleTables() == Tables(map[1 := SamplePayment()], [SampleRefund("refund-1", 2), SampleRefund("refund-2", 3)], map[], [], map[])
    ensures RefundReferencesUnique(SampleTables().refunds)
  {
    SampleKeys();
    var t := Tables(map[1 := SamplePayment()], [], map[], [], map[]);
    SampleCommand(t, "refund-1", 2);
    SampleCommand(t.(refunds := [SampleRefund("refund-1", 2)]), "refund-2", 3);
    assert [] + [SampleRefund("refund-1", 2)] == [SampleRefund("refund-1", 2)];
  }

  /** The provider confirms the first of them. */
  function SampleCallback(): KoraData {
    KoraData(RefundReference("refund-1"), "", "KPY-1", "success", "")
  }

  /** Two refunds of one payment and the success of the first: the second completes and its three cents are posted, the
      first stays open. */
  lemma FirstRefundLosesItsSuccess(now: Time, uuid: nat)
    ensures var r := RefundEvent(SampleTables(), SampleCallback(), WebhookOutcome("success"), now, uuid);
            && r.Success?
            && r.value.refunds == [SampleRefund("refund-1", 2),
                                   SampleRefund("refund-2", 3).(status := "success", completedAt := Some(now))]
            && KoraPostings(r.value.ledger) == {Posting(KoraRefund(RefundReference("refund-2")), 7, 3 * CENT, "XOF")}
  {
    SampleRecords();
    SuccessWord();
    var t := SampleTables();
    SampleIsShadowed(t);
    SuccessGoesToNewest(t, 0, 1, SampleCallback(), now, uuid);
    TwoRecords(t, SampleRefund("refund-2", 3).(status := "success", completedAt := Some(now)));
  }

  lemma SuccessWord()
    ensures WebhookOutcome("success") == Succeeded
  {
    assert Lower("success") == "success";
  }

  lemma TwoRecords(t: Tables, r: Refund)
    requires t.refunds == [SampleRefund("refund-1", 2), SampleRefund("refund-2", 3)]
    ensures t.refunds[1 := r] == [SampleRefund("refund-1", 2), r]
  {
  }

  lemma SampleIsShadowed(t: Tables)
    requires t == Tables(map[1 := SamplePayment()], [SampleRefund("refund-1", 2), SampleRefund("refund-2", 3)], map[], [], map[])
    ensures LedgerInv(t) && KoraPostings(t.ledger) == {} && Shadowed(t.refunds, 0) && Names(SampleCallback(), t.refunds[0])
    ensures IsNewest(t.refunds, 1, t.refunds[0].paymentReference) && HasAfmParent(t, t.refunds[1])
    ensures SampleCallback().reference != "" && SampleCallback().paymentReference != ""
    ensures DebitOf(t, t.refunds[1]) == {Posting(KoraRefund(RefundReference("refund-2")), 7, 3 * CENT, "XOF")}
  {
    SampleKeys();
    assert KoraPostings(t.ledger) == {};
    assert t.refunds[1].paymentReference == t.refunds[0].paymentReference;
  }

  /** Every refund callback that uses this refund's reference also uses its payment reference. */
  predicate Honest(s: State, a: Step, r: Refund) {
    a.Apply? && a.d in s.deliveries && s.deliveries[a.d].Open? && IsRefundEvent(s.deliveries[a.d].event.kind)
    && s.deliveries[a.d].event.data.reference == r.refundReference ==>
      s.deliveries[a.d].event.data.paymentReference == r.paymentReference
  }

  ghost predicate HonestRun(s: State, steps: seq<Step>, r: Refund)
    requires IsRun(s, steps)
    decreases steps
  {
    steps == [] || (Honest(s, steps[0], r) && HonestRun(Next(s, steps[0]), steps[1..], r))
  }

  lemma ShadowedIsMissed(t: Tables, i: nat, data: KoraData, outcome: Outcome, now: Time, uuid: nat)
    requires i < |t.refunds| && Shadowed(t.refunds, i)
    requires data.reference == t.refunds[i].refundReference ==> data.paymentReference == t.refunds[i].paymentReference
    requires RefundEvent(t, data, outcome, now, uuid).Success?
    ensures RefundEvent(t, data, outcome, now, uuid).value.refunds[i] == t.refunds[i]
  {
    var found := LatestRefund(t.refunds, data.reference, data.paymentReference);
    var j :| i < j < |t.refunds| && t.refunds[j].paymentReference == t.refunds[i].paymentReference;
    if NamesRefund(t.refunds[i], data.reference, data.paymentReference) {
      assert NamesRefund(t.refunds[j], data.reference, data.paymentReference);
    }
    assert found.value != i;
  }

  lemma ShadowStays(x: seq<Refund>, y: seq<Refund>, i: nat)
    requires i < |x| && Shadowed(x, i) && RefundsExtend(x, y)
    ensures i < |y| && Shadowed(y, i)
  {
    var j :| i < j < |x| && x[j].paymentReference == x[i].paymentReference;
    assert RefundIdentity(y[i]) == RefundIdentity(x[i]) && RefundIdentity(y[j]) == RefundIdentity(x[j]);
  }

  lemma StepMissesShadowed(s: State, a: Step, i: nat)
    requires Enabled(s, a) && i < |s.db.refunds| && Shadowed(s.db.refunds, i) && Honest(s, a, s.db.refunds[i])
    ensures i < |Next(s, a).db.refunds| && Next(s, a).db.refunds[i].completedAt == s.db.refunds[i].completedAt
  {
    StepFrame(s, a);
    if a.Apply? && Effect(s, a.d, a.uuid, a.commits).Some? {
      var e := s.deliveries[a.d].event;
      if IsRefundEvent(e.kind) {
        ShadowedIsMissed(s.db, i, e.data, WebhookOutcome(e.data.status), s.clock, a.uuid);
      } else {
        PaymentEventFrame(s.db, IsPayoutEvent(e.kind), e.data, WebhookOutcome(e.data.status), s.clock, a.uuid);
        PaymentEventKeepsRefunds(s.db, IsPayoutEvent(e.kind), e.data, WebhookOutcome(e.data.status), s.clock, a.uuid);
      }
    }
  }

  lemma PaymentEventKeepsRefunds(t: Tables, payout: bool, data: KoraData, outcome: Outcome, now: Time, uuid: nat)
    requires PaymentEvent(t, payout, data, outcome, now, uuid).Success?
    ensures PaymentEvent(t, payout, data, outcome, now, uuid).value.refunds == t.refunds
  {
  }

  /** In no run does a shadowed refund complete through its own callbacks. */
  lemma {:induction false} ShadowedRefundNeverCompletes(s: State, steps: seq<Step>, i: nat, r: Refund)
    requires i < |s.db.refunds| && RefundIdentity(s.db.refunds[i]) == RefundIdentity(r)
    requires Shadowed(s.db.refunds, i) && s.db.refunds[i].completedAt.None?
    requires IsRun(s, steps) && HonestRun(s, steps, r)
    ensures i < |Run(s, steps).db.refunds| && Run(s, steps).db.refunds[i].completedAt.None?
    decreases steps
  {
    if steps != [] {
      var s1 := Next(s, steps[0]);
      StepMissesShadowed(s, steps[0], i);
      StepFrame(s, steps[0]);
      ShadowStays(s.db.refunds, s1.db.refunds, i);
      assert RefundIdentity(s1.db.refunds[i]) == RefundIdentity(s.db.refunds[i]);
      ShadowedRefundNeverCompletes(s1, steps[1..], i, r);
    }
  }
}
