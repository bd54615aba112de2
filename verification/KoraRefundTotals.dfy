/** Refunds of one payment in total. The command checks its amount against the payment, never against what was
    already refunded. */
module KoraRefundTotals {
  import opened Wrappers
  import opened KoraTables
  import opened KoraStatus
  import opened KoraWebhooks
  import opened KoraRefunds
  import opened KoraSystem
  import opened KoraRefundRuns
  import KoraRefundMatching

  /** The total of the refund records of a payment. */
  function RefundedTotal(refunds: seq<Refund>, id: nat): int {
    if refunds == [] then 0
    else RefundedTotal(refunds[..|refunds| - 1], id) + Share(refunds[|refunds| - 1], id)
  }

  function Share(r: Refund, id: nat): int {
    if r.transactionId == id then r.amount else 0
  }

  lemma TotalAppend(refunds: seq<Refund>, r: Refund, id: nat)
    ensures RefundedTotal(refunds + [r], id) == RefundedTotal(refunds, id) + Share(r, id)
  {
    assert (refunds + [r])[..|refunds|] == refunds;
  }

  /** Statuses and completion do not enter the total. */
  lemma {:induction false} TotalOfSameRows(x: seq<Refund>, y: seq<Refund>, id: nat)
    requires |x| == |y| && RefundsExtend(x, y)
    ensures RefundedTotal(y, id) == RefundedTotal(x, id)
    decreases |x|
  {
    if x != [] {
      var n := |x| - 1;
      assert RefundIdentity(y[n]) == RefundIdentity(x[n]);
      TotalOfSameRows(x[..n], y[..n], id);
    }
  }

  // ----- Refunds that went through -----

  /** The total of a payment's refunds that the provider confirmed: completed_at is never cleared. */
  function CompletedTotal(refunds: seq<Refund>, id: nat): int {
    if refunds == [] then 0
    else CompletedTotal(refunds[..|refunds| - 1], id) + CompletedShare(refunds[|refunds| - 1], id)
  }

  function CompletedShare(r: Refund, id: nat): int {
    if r.completedAt.Some? then Share(r, id) else 0
  }

  predicate AmountsOk(refunds: seq<Refund>) {
    forall i | 0 <= i < |refunds| :: refunds[i].amount >= 0
  }

  lemma CompletedAppend(refunds: seq<Refund>, r: Refund, id: nat)
    ensures CompletedTotal(refunds + [r], id) == CompletedTotal(refunds, id) + CompletedShare(r, id)
  {
    assert (refunds + [r])[..|refunds|] == refunds;
  }

  lemma {:induction false} CompletedUpdate(refunds: seq<Refund>, i: nat, r: Refund, id: nat)
    requires i < |refunds|
    ensures CompletedTotal(refunds[i := r], id)
         == CompletedTotal(refunds, id) - CompletedShare(refunds[i], id) + CompletedShare(r, id)
    decreases |refunds|
  {
    var n := |refunds| - 1;
    if i < n {
      assert refunds[i := r][..n] == refunds[..n][i := r];
      CompletedUpdate(refunds[..n], i, r, id);
    } else {
      assert refunds[i := r][..n] == refunds[..n];
    }
  }

  /** What went through never exceeds what was recorded. */
  lemma {:induction false} CompletedWithinRecorded(refunds: seq<Refund>, id: nat)
    requires AmountsOk(refunds)
    ensures 0 <= CompletedTotal(refunds, id) <= RefundedTotal(refunds, id)
  {
    if refunds != [] {
      CompletedWithinRecorded(refunds[..|refunds| - 1], id);
    }
  }

  // ----- A payment refunded twice -----

  function RefundedPayment(): Transaction {
    Transaction(0, true, AFM_PAYMENTS, false, "pay-1", "KPY-1", "", None, 5 * CENT, "XOF", Refunded, None, None)
  }

  /** A payment whose one refund, in full, went through. */
  function RefundedTables(): Tables {
    var first := Refund(1, RefundReference("refund-1"), "refund-1", "KPY-1", 5 * CENT, "XOF", "success", Some(0));
    Tables(map[1 := RefundedPayment()], [first], map[], [], map[])
  }

  function AnotherRefund(): Request {
    Request(0, 1, 1, None, true, "refund-2", "CONFIRM", false)
  }

  function SuccessOf(key: string): KoraData {
    KoraData(RefundReference(key), "", "KPY-1", "success", "")
  }

  lemma AnotherRefundIsRecorded()
    ensures var t := RefundedTables();
            && Decide(t, AnotherRefund()) == Proceed(5 * CENT)
            && Commanded(t, AnotherRefund(), Accepted("processing")).1
            == t.(refunds := t.refunds + [Refund(1, RefundReference("refund-2"), "refund-2", "KPY-1", 5 * CENT, "XOF", "processing", None)])
  {
    var t, r := RefundedTables(), AnotherRefund();
    assert Key(r) == "refund-2" && Lower("processing") == "processing";
    assert "refund-1"[7] != "refund-2"[7];
    assert RefundReference("refund-1")[15] == '1' && RefundReference("refund-2")[15] == '2';
    assert t.refunds[..0] == [];
    assert Decide(t, r) == Proceed(5 * CENT);
  }

  /** Each command is checked against the payment alone: a payment already refunded in full accepts another refund in
      full under a new key, and its success is taken too, so twice the payment goes out. */
  lemma PaymentCanBeOverRefunded(now: Time, uuid: nat)
    ensures var t := Commanded(RefundedTables(), AnotherRefund(), Accepted("processing")).1;
            var r := RefundEvent(t, SuccessOf("refund-2"), WebhookOutcome("success"), now, uuid);
            && CompletedTotal(RefundedTables().refunds, 1) == RefundedPayment().amount
            && r.Success? && CompletedTotal(r.value.refunds, 1) == 2 * RefundedPayment().amount
  {
    AnotherRefundIsRecorded();
    var t := Commanded(RefundedTables(), AnotherRefund(), Accepted("processing")).1;
    assert Lower("success") == "success";
    assert SuccessOf("refund-2").reference[0] == 'a';
    assert LatestRefund(t.refunds, SuccessOf("refund-2").reference, "KPY-1") == Some(1);
    var r := RefundEvent(t, SuccessOf("refund-2"), WebhookOutcome("success"), now, uuid);
    assert r.value.refunds == [t.refunds[0], t.refunds[1].(status := "success", completedAt := Some(now))];
    assert RefundedTables().refunds[..0] == [];
    assert r.value.refunds[..1] == RefundedTables().refunds;
  }

  // ----- When the records stay within the payment -----

  /** The step inserts a record of the payment. */
  predicate Refunds(s: State, a: Step, id: nat) {
    a.InsertRefund? && a.c in s.commands && Insertable(s.db.refunds, RowOf(s.commands[a.c]))
    && RowOf(s.commands[a.c]).transactionId == id
  }

  function Left(s: State, id: nat): int
    requires id in s.db.transactions
  {
    s.db.transactions[id].amount - RefundedTotal(s.db.refunds, id)
  }

  /** Every record the run inserts for the payment is no larger than what is left of it: the test the command omits. */
  ghost predicate EveryRefundFits(s: State, steps: seq<Step>, id: nat)
    requires IsRun(s, steps) && id in s.db.transactions
    decreases steps
  {
    steps != [] ==>
      && (Refunds(s, steps[0], id) ==> RowOf(s.commands[steps[0].c]).amount <= Left(s, id))
      && id in Next(s, steps[0]).db.transactions
      && EveryRefundFits(Next(s, steps[0]), steps[1..], id)
  }

  /** A step takes from what is left exactly the record it inserts, and never puts anything back. */
  lemma StepTakes(s: State, a: Step, id: nat)
    requires RefundInv(s) && Enabled(s, a) && id in s.db.transactions
    ensures var s' := Next(s, a);
            && id in s'.db.transactions && Left(s', id) <= Left(s, id)
            && Left(s', id) == Left(s, id) - (if Refunds(s, a, id) then RowOf(s.commands[a.c]).amount else 0)
  {
    StepFrame(s, a);
    StepKeepsRows(s, a);
    var s' := Next(s, a);
    assert PaymentIdentity(s'.db.transactions[id]) == PaymentIdentity(s.db.transactions[id]);
    if a.InsertRefund? && Insertable(s.db.refunds, RowOf(s.commands[a.c])) {
      assert CommandOk(s.db, s.commands[a.c]);
      TotalAppend(s.db.refunds, RowOf(s.commands[a.c]), id);
    } else {
      TotalOfSameRows(s.db.refunds, s'.db.refunds, id);
    }
  }

  lemma {:induction false} OverRefundStays(s: State, steps: seq<Step>, id: nat)
    requires RefundInv(s) && IsRun(s, steps) && id in s.db.transactions && Left(s, id) < 0
    ensures id in Run(s, steps).db.transactions && Left(Run(s, steps), id) < 0
    decreases steps
  {
    if steps != [] {
      StepTakes(s, steps[0], id);
      StepKeepsRefunds(s, steps[0]);
      OverRefundStays(Next(s, steps[0]), steps[1..], id);
    }
  }

  /** Over any run of concurrent commands, callbacks and workers, the refund records of a payment, refused ones included,
      stay within it if and only if each fitted what was left when it was inserted. */
  lemma {:induction false} TotalStaysWithinPaymentIff(s: State, steps: seq<Step>, id: nat)
    requires RefundInv(s) && IsRun(s, steps) && id in s.db.transactions && Left(s, id) >= 0
    ensures id in Run(s, steps).db.transactions
    ensures Left(Run(s, steps), id) >= 0 <==> EveryRefundFits(s, steps, id)
    decreases steps
  {
    if steps != [] {
      var s1 := Next(s, steps[0]);
      StepTakes(s, steps[0], id);
      StepKeepsRefunds(s, steps[0]);
      if Left(s1, id) >= 0 {
        TotalStaysWithinPaymentIff(s1, steps[1..], id);
      } else {
        OverRefundStays(s1, steps[1..], id);
      }
    }
  }

  // ----- When the refunds that went through stay within the payment -----

  /** The refund a step completes. */
  ghost function Completed(s: State, a: Step): Option<nat>
    requires Enabled(s, a)
  {
    if a.Apply? && Effect(s, a.d, a.uuid, a.commits).Some? then
      var e := s.deliveries[a.d].event;
      if IsRefundEvent(e.kind) && WebhookOutcome(e.data.status).Succeeded?
      then LatestRefund(s.db.refunds, e.data.reference, e.data.paymentReference)
      else None
    else None
  }

  /** The amount by which a step raises the refunds of a payment that went through: a first completion. */
  ghost function Raise(s: State, a: Step, id: nat): int
    requires Enabled(s, a)
  {
    match Completed(s, a)
    case None => 0
    case Some(i) => if s.db.refunds[i].completedAt.None? then Share(s.db.refunds[i], id) else 0
  }

  function Uncompleted(s: State, id: nat): int
    requires id in s.db.transactions
  {
    s.db.transactions[id].amount - CompletedTotal(s.db.refunds, id)
  }

  lemma {:induction false} CompletedOfSameRows(x: seq<Refund>, y: seq<Refund>, id: nat)
    requires |x| == |y| && RefundsExtend(x, y) && forall i | 0 <= i < |x| :: y[i].completedAt == x[i].completedAt
    ensures CompletedTotal(y, id) == CompletedTotal(x, id)
    decreases |x|
  {
    if x != [] {
      var n := |x| - 1;
      assert RefundIdentity(y[n]) == RefundIdentity(x[n]);
      CompletedOfSameRows(x[..n], y[..n], id);
    }
  }

  lemma RefundEventRaises(t: Tables, data: KoraData, outcome: Outcome, now: Time, uuid: nat, id: nat)
    requires RefundEvent(t, data, outcome, now, uuid).Success?
    ensures var i := LatestRefund(t.refunds, data.reference, data.paymentReference);
            && i.Some?
            && CompletedTotal(RefundEvent(t, data, outcome, now, uuid).value.refunds, id)
            == CompletedTotal(t.refunds, id)
               + (if outcome.Succeeded? && t.refunds[i.value].completedAt.None? then Share(t.refunds[i.value], id) else 0)
  {
    var i := LatestRefund(t.refunds, data.reference, data.paymentReference).value;
    CompletedUpdate(t.refunds, i, RefundEvent(t, data, outcome, now, uuid).value.refunds[i], id);
  }

  lemma ApplyRaises(s: State, d: nat, uuid: nat, commits: bool, id: nat)
    requires Enabled(s, Apply(d, uuid, commits))
    ensures CompletedTotal(DoApply(s, d, uuid, commits).db.refunds, id)
         == CompletedTotal(s.db.refunds, id) + Raise(s, Apply(d, uuid, commits), id)
  {
    var e := s.deliveries[d].event;
    if Effect(s, d, uuid, commits).Some? {
      if IsRefundEvent(e.kind) {
        RefundEventRaises(s.db, e.data, WebhookOutcome(e.data.status), s.clock, uuid, id);
      } else {
        KoraRefundMatching.PaymentEventKeepsRefunds(s.db, IsPayoutEvent(e.kind), e.data, WebhookOutcome(e.data.status), s.clock, uuid);
      }
    }
  }

  lemma AmountsStay(x: seq<Refund>, y: seq<Refund>)
    requires AmountsOk(x) && RefundsExtend(x, y) && |x| <= |y| <= |x| + 1
    requires |y| == |x| + 1 ==> y[|x|].amount >= 0
    ensures AmountsOk(y)
  {
    forall i | 0 <= i < |y| ensures y[i].amount >= 0 {
      if i < |x| {
        assert RefundIdentity(y[i]) == RefundIdentity(x[i]);
      }
    }
  }

  lemma StepKeepsAmounts(s: State, a: Step)
    requires RefundInv(s) && AmountsOk(s.db.refunds) && Enabled(s, a)
    ensures AmountsOk(Next(s, a).db.refunds)
  {
    StepFrame(s, a);
    if IsRefundStep(a) {
      assert a.InsertRefund? ==> CommandOk(s.db, s.commands[a.c]);
    } else {
      OthersIgnoreCommands(s, a);
    }
    AmountsStay(s.db.refunds, Next(s, a).db.refunds);
  }

  lemma InsertRaisesNothing(s: State, c: nat, id: nat)
    requires RefundInv(s) && Enabled(s, InsertRefund(c))
    ensures CompletedTotal(DoInsertRefund(s, c).db.refunds, id) == CompletedTotal(s.db.refunds, id)
  {
    if Insertable(s.db.refunds, RowOf(s.commands[c])) {
      CompletedAppend(s.db.refunds, RowOf(s.commands[c]), id);
    }
  }

  lemma QuietRaisesNothing(s: State, a: Step, id: nat)
    requires Enabled(s, a) && !a.Apply? && !a.Simulate? && !a.InsertRefund?
    ensures CompletedTotal(Next(s, a).db.refunds, id) == CompletedTotal(s.db.refunds, id)
  {
    StepFrame(s, a);
    QuietSteps(s, a);
    CompletedOfSameRows(s.db.refunds, Next(s, a).db.refunds, id);
  }

  lemma CompletedRises(s: State, a: Step, id: nat)
    requires RefundInv(s) && Enabled(s, a)
    ensures CompletedTotal(Next(s, a).db.refunds, id) == CompletedTotal(s.db.refunds, id) + Raise(s, a, id)
  {
    match a {
      case Apply(d, uuid, commits) => ApplyRaises(s, d, uuid, commits, id);
      case InsertRefund(c) => InsertRaisesNothing(s, c, id);
      case Simulate(_, _, _) =>
      case _ => QuietRaisesNothing(s, a, id);
    }
  }

  /** A step raises what went through by the first completion it commits, and nothing lowers it. */
  lemma StepRaises(s: State, a: Step, id: nat)
    requires RefundInv(s) && AmountsOk(s.db.refunds) && Enabled(s, a) && id in s.db.transactions
    ensures var s' := Next(s, a);
            && id in s'.db.transactions && AmountsOk(s'.db.refunds)
            && Uncompleted(s', id) == Uncompleted(s, id) - Raise(s, a, id) && Raise(s, a, id) >= 0
  {
    StepFrame(s, a);
    StepKeepsAmounts(s, a);
    CompletedRises(s, a, id);
    assert PaymentIdentity(Next(s, a).db.transactions[id]) == PaymentIdentity(s.db.transactions[id]);
  }

  /** Every first completion of the run fits what is left of the payment after the completions before it. */
  ghost predicate EveryCompletionFits(s: State, steps: seq<Step>, id: nat)
    requires IsRun(s, steps) && id in s.db.transactions
    decreases steps
  {
    steps != [] ==>
      && (Raise(s, steps[0], id) > 0 ==> Raise(s, steps[0], id) <= Uncompleted(s, id))
      && id in Next(s, steps[0]).db.transactions
      && EveryCompletionFits(Next(s, steps[0]), steps[1..], id)
  }

  lemma {:induction false} OverpaidStays(s: State, steps: seq<Step>, id: nat)
    requires RefundInv(s) && AmountsOk(s.db.refunds) && IsRun(s, steps) && id in s.db.transactions && Uncompleted(s, id) < 0
    ensures id in Run(s, steps).db.transactions && Uncompleted(Run(s, steps), id) < 0
    decreases steps
  {
    if steps != [] {
      StepRaises(s, steps[0], id);
      StepKeepsRefunds(s, steps[0]);
      OverpaidStays(Next(s, steps[0]), steps[1..], id);
    }
  }

  /** Over any run, the refunds of a payment that went through stay within it if and only if each completion fitted
      what the earlier ones had left. Records the provider refused play no part. */
  lemma {:induction false} CompletedStaysWithinPaymentIff(s: State, steps: seq<Step>, id: nat)
    requires RefundInv(s) && AmountsOk(s.db.refunds) && IsRun(s, steps) && id in s.db.transactions && Uncompleted(s, id) >= 0
    ensures id in Run(s, steps).db.transactions
    ensures Uncompleted(Run(s, steps), id) >= 0 <==> EveryCompletionFits(s, steps, id)
    decreases steps
  {
    if steps != [] {
      var s1 := Next(s, steps[0]);
      StepRaises(s, steps[0], id);
      StepKeepsRefunds(s, steps[0]);
      if Uncompleted(s1, id) >= 0 {
        CompletedStaysWithinPaymentIff(s1, steps[1..], id);
      } else {
        OverpaidStays(s1, steps[1..], id);
      }
    }
  }

  lemma {:induction false} RunKeepsAmounts(s: State, steps: seq<Step>)
    requires RefundInv(s) && AmountsOk(s.db.refunds) && IsRun(s, steps)
    ensures AmountsOk(Run(s, steps).db.refunds)
    decreases steps
  {
    if steps != [] {
      StepKeepsAmounts(s, steps[0]);
      StepKeepsRefunds(s, steps[0]);
      RunKeepsAmounts(Next(s, steps[0]), steps[1..]);
    }
  }

  /** A guard a command could check: when each record fits what the records before it left, no more than the payment
      ever goes out. */
  lemma FittingRecordsAreEnough(s: State, steps: seq<Step>, id: nat)
    requires RefundInv(s) && AmountsOk(s.db.refunds) && IsRun(s, steps) && id in s.db.transactions && Left(s, id) >= 0
    requires EveryRefundFits(s, steps, id)
    ensures id in Run(s, steps).db.transactions && Uncompleted(Run(s, steps), id) >= 0
  {
    TotalStaysWithinPaymentIff(s, steps, id);
    RunKeepsAmounts(s, steps);
    CompletedWithinRecorded(Run(s, steps).db.refunds, id);
  }
}
