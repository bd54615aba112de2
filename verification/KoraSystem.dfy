/** The whole protocol as a step system: any number of deliveries, refund commands and reconciliation workers
    over one database, each committed transaction one atomic step, with crashes between the commits of a handler. */
module KoraSystem {
  import opened Wrappers
  import opened KoraTables
  import opened KoraStatus
  import opened KoraWebhooks
  import opened KoraRefunds
  import opened Reconciliation

  // ----- States -----

  /** A delivery between its commits: its event row is inserted, or its handler raised and was rolled back. */
  datatype Delivery = Open(event: Event) | Failing(event: Event) | Closed

  /** A refund command past its checks; `stored` is the row it inserted. */
  datatype Phase = Reading | Stored | Calling | Over

  datatype Command = Command(request: Request, parent: Transaction, amount: int, stored: Option<nat>, phase: Phase)

  /** `applied` lists the event ids whose business transaction committed and `initiated` the idempotency keys
      sent to the provider, in order: what an outside observer of the two systems has seen. */
  datatype State = State(
    db: Tables,
    deliveries: map<nat, Delivery>,
    commands: map<nat, Command>,
    workers: map<nat, Lease>,
    clock: Time,
    applied: seq<string>,
    initiated: seq<string>)

  // ----- Steps -----

  datatype Step =
    | Tick(elapsed: nat)
    | InsertPayment(id: nat, txn: Transaction)
    | Simulate(id: nat, txn: Transaction, uuid: nat)
    | Deliver(d: nat, event: Event)
    | Apply(d: nat, uuid: nat, commits: bool)
    | MarkFailed(d: nat)
    | CrashDelivery(d: nat)
    | ReadRefund(c: nat, request: Request)
    | InsertRefund(c: nat)
    | CallProvider(c: nat)
    | StoreRefundReply(c: nat, reply: ProviderReply)
    | CrashRefund(c: nat)
    | EnqueueTask(id: nat, data: KoraData)
    | ClaimTask(w: nat, id: nat)
    | FinishTask(w: nat, answer: Answer)
    | CrashWorker(w: nat)

  /** A payment row any route may insert: a new id, a new idempotency key, no settlement yet. */
  predicate NewPayment(s: State, id: nat, txn: Transaction) {
    && id !in s.db.transactions && txn.amount >= 0 && txn.settledAt.None?
    && forall o | o in s.db.transactions :: s.db.transactions[o].idempotencyKey != txn.idempotencyKey
  }

  /** When a step can happen. A claim may take any due task: rows locked by another worker are skipped, so the one
      it takes need not be the first in the order of the query. */
  predicate Enabled(s: State, a: Step) {
    match a
    case Tick(_) => true
    case InsertPayment(id, txn) => NewPayment(s, id, txn)
    case Simulate(id, txn, _) => NewPayment(s, id, txn) && txn.account.Some? && txn.status.Pending?
    case Deliver(d, _) => d !in s.deliveries
    case Apply(d, _, _) => d in s.deliveries && s.deliveries[d].Open?
    case MarkFailed(d) => d in s.deliveries && s.deliveries[d].Failing?
    case CrashDelivery(d) => d in s.deliveries
    case ReadRefund(c, request) => c !in s.commands && (request.amount.Some? ==> request.amount.value > 0)
    case InsertRefund(c) => c in s.commands && s.commands[c].phase.Reading?
    case CallProvider(c) => c in s.commands && s.commands[c].phase.Stored?
    case StoreRefundReply(c, _) => c in s.commands && s.commands[c].phase.Calling? && s.commands[c].stored.Some?
                                   && s.commands[c].stored.value < |s.db.refunds|
    case CrashRefund(c) => c in s.commands
    case EnqueueTask(id, _) => id in s.db.transactions
    case ClaimTask(w, id) => w !in s.workers && id in s.db.tasks && Due(s.db.tasks[id], s.clock)
    case FinishTask(w, _) => w in s.workers
    case CrashWorker(w) => w in s.workers
  }

  function InsertRow(t: Tables, id: nat, txn: Transaction): Tables {
    t.(transactions := t.transactions[id := txn])
  }

  /** The zero-value journal entry of a simulated payment. */
  function IntentEntry(id: nat, txn: Transaction, uuid: nat, now: Time): LedgerEntry
    requires txn.account.Some?
  {
    LedgerEntry(uuid, txn.account.value, Credit, 0, txn.currency, ToTransaction(id), now)
  }

  /** First commit of a delivery: the unique event id admits one row, every other delivery is acknowledged. */
  function DoDeliver(s: State, d: nat, e: Event): State {
    if e.id in s.db.events then s.(deliveries := s.deliveries[d := Closed])
    else s.(db := s.db.(events := s.db.events[e.id := EventRow(e, Received)]), deliveries := s.deliveries[d := Open(e)])
  }

  function SetEventStatus(t: Tables, id: string, status: EventStatus): Tables {
    if id in t.events then t.(events := t.events[id := t.events[id].(status := status)]) else t
  }

  /** The business transaction of an open delivery; None when the handler raises or the commit is refused. */
  ghost function Effect(s: State, d: nat, uuid: nat, commits: bool): Option<Tables>
    requires d in s.deliveries && s.deliveries[d].Open?
  {
    var r := BusinessEvent(s.db, s.deliveries[d].event, s.clock, uuid);
    if commits && r.Success? then Some(r.value) else None
  }

  /** Second commit of a delivery: effects and the processed mark together, or a rollback. */
  ghost function DoApply(s: State, d: nat, uuid: nat, commits: bool): State
    requires d in s.deliveries && s.deliveries[d].Open?
  {
    var e := s.deliveries[d].event;
    match Effect(s, d, uuid, commits)
    case Some(t) =>
      s.(db := SetEventStatus(t, e.id, Processed), deliveries := s.deliveries[d := Closed], applied := s.applied + [e.id])
    case None =>
      s.(deliveries := s.deliveries[d := Failing(e)])
  }

  /** Commit of the failure branch. */
  function DoMarkFailed(s: State, d: nat): State
    requires d in s.deliveries && s.deliveries[d].Failing?
  {
    s.(db := SetEventStatus(s.db, s.deliveries[d].event.id, EventFailed), deliveries := s.deliveries[d := Closed])
  }

  function DoReadRefund(s: State, c: nat, r: Request): State {
    var decision := Decide(s.db, r);
    if decision.Proceed?
    then s.(commands := s.commands[c := Command(r, s.db.transactions[r.pathTransaction], decision.amount, None, Reading)])
    else s
  }

  function RowOf(k: Command): Refund {
    NewRefund(k.request, k.parent, k.amount)
  }

  function DoInsertRefund(s: State, c: nat): State
    requires c in s.commands
  {
    var k := s.commands[c];
    if Insertable(s.db.refunds, RowOf(k)) then
      s.(db := s.db.(refunds := s.db.refunds + [RowOf(k)]),
         commands := s.commands[c := k.(stored := Some(|s.db.refunds|), phase := Stored)])
    else s.(commands := s.commands[c := k.(phase := Over)])
  }

  function DoCallProvider(s: State, c: nat): State
    requires c in s.commands
  {
    s.(commands := s.commands[c := s.commands[c].(phase := Calling)], initiated := s.initiated + [Key(s.commands[c].request)])
  }

  function DoStoreReply(s: State, c: nat, reply: ProviderReply): State
    requires Enabled(s, StoreRefundReply(c, reply))
  {
    var i := s.commands[c].stored.value;
    s.(db := s.db.(refunds := s.db.refunds[i := StoreReply(s.db.refunds[i], reply)]),
       commands := s.commands[c := s.commands[c].(phase := Over)])
  }

  ghost function Next(s: State, a: Step): State
    requires Enabled(s, a)
  {
    match a
    case Tick(elapsed) => s.(clock := s.clock + elapsed)
    case InsertPayment(id, txn) => s.(db := InsertRow(s.db, id, txn))
    case Simulate(id, txn, uuid) =>
      s.(db := InsertRow(s.db, id, txn).(ledger := s.db.ledger + [IntentEntry(id, txn, uuid, s.clock)]))
    case Deliver(d, event) => DoDeliver(s, d, event)
    case Apply(d, uuid, commits) => DoApply(s, d, uuid, commits)
    case MarkFailed(d) => DoMarkFailed(s, d)
    case CrashDelivery(d) => s.(deliveries := s.deliveries[d := Closed])
    case ReadRefund(c, request) => DoReadRefund(s, c, request)
    case InsertRefund(c) => DoInsertRefund(s, c)
    case CallProvider(c) => DoCallProvider(s, c)
    case StoreRefundReply(c, reply) => DoStoreReply(s, c, reply)
    case CrashRefund(c) => s.(commands := s.commands[c := s.commands[c].(phase := Over)])
    case EnqueueTask(id, data) => s.(db := Enqueue(s.db, id, data, s.clock))
    case ClaimTask(w, id) =>
      s.(db := Claim(s.db, id, s.clock), workers := s.workers[w := LeaseOf(s.db, id, s.clock)])
    case FinishTask(w, answer) =>
      s.(db := Finish(s.db, s.workers[w].task, answer, s.clock), workers := s.workers - {w})
    case CrashWorker(w) => s.(workers := s.workers - {w})
  }

  // ----- Runs -----

  ghost predicate IsRun(s: State, steps: seq<Step>)
    decreases steps
  {
    steps == [] || (Enabled(s, steps[0]) && IsRun(Next(s, steps[0]), steps[1..]))
  }

  ghost function Run(s: State, steps: seq<Step>): State
    requires IsRun(s, steps)
    decreases steps
  {
    if steps == [] then s else Run(Next(s, steps[0]), steps[1..])
  }

  lemma RunFirst(s: State, a: Step, rest: seq<Step>)
    requires Enabled(s, a) && IsRun(Next(s, a), rest)
    ensures IsRun(s, [a] + rest) && Run(s, [a] + rest) == Run(Next(s, a), rest)
  {
    assert ([a] + rest)[1..] == rest;
  }

  lemma RunOne(s: State, a: Step)
    requires Enabled(s, a)
    ensures IsRun(s, [a]) && Run(s, [a]) == Next(s, a)
  {
    RunFirst(s, a, []);
    assert [a] + [] == [a];
  }

  // ----- What no step touches -----

  /** The columns of a payment that no handler writes. */
  function PaymentIdentity(txn: Transaction): Transaction {
    txn.(status := Pending, settledAt := None, webhookReceivedAt := None)
  }

  function RefundIdentity(r: Refund): Refund {
    r.(status := "", completedAt := None)
  }

  predicate PaymentsExtend(x: map<nat, Transaction>, y: map<nat, Transaction>) {
    forall id | id in x :: id in y && PaymentIdentity(y[id]) == PaymentIdentity(x[id])
  }

  predicate RefundsExtend(x: seq<Refund>, y: seq<Refund>) {
    && |x| <= |y|
    && forall i | 0 <= i < |x| :: RefundIdentity(y[i]) == RefundIdentity(x[i])
  }

  predicate BusinessKeeps(t: Tables, t': Tables) {
    && t'.events == t.events
    && t'.transactions.Keys == t.transactions.Keys && PaymentsExtend(t.transactions, t'.transactions)
    && |t'.refunds| == |t.refunds| && RefundsExtend(t.refunds, t'.refunds)
    && t.ledger <= t'.ledger
    && (t'.ledger == t.ledger || (|t'.ledger| == |t.ledger| + 1 && IsKora(t'.ledger[|t.ledger|].reference)))
  }

  lemma PaymentUpdated(m: map<nat, Transaction>, id: nat, txn: Transaction)
    requires id in m && PaymentIdentity(txn) == PaymentIdentity(m[id])
    ensures m[id := txn].Keys == m.Keys && PaymentsExtend(m, m[id := txn])
  {
  }

  lemma RefundUpdated(refunds: seq<Refund>, i: nat, r: Refund)
    requires i < |refunds| && RefundIdentity(r) == RefundIdentity(refunds[i])
    ensures RefundsExtend(refunds, refunds[i := r])
  {
  }

  lemma PostOnceFrame(t: Tables, t1: Tables, e: LedgerEntry)
    requires BusinessKeeps(t, t1) && t1.ledger == t.ledger && IsKora(e.reference) && PostOnce(t1, e).Success?
    ensures BusinessKeeps(t, PostOnce(t1, e).value)
  {
  }

  lemma PaymentEventFrame(t: Tables, payout: bool, data: KoraData, outcome: Outcome, now: Time, uuid: nat)
    requires PaymentEvent(t, payout, data, outcome, now, uuid).Success?
    ensures BusinessKeeps(t, PaymentEvent(t, payout, data, outcome, now, uuid).value)
  {
    var found := FindTransaction(t.transactions, EventReference(data));
    if found.Found? {
      var txn := t.transactions[found.id].(webhookReceivedAt := Some(now));
      match outcome {
        case Succeeded =>
          var txn' := txn.(status := Completed, settledAt := Some(now));
          PaymentUpdated(t.transactions, found.id, txn');
          if payout && txn.account.Some? {
            PostOnceFrame(t, t.(transactions := t.transactions[found.id := txn']),
                          PayoutEntry(uuid, txn.account.value, txn, EventReference(data), now));
          }
        case Refused => PaymentUpdated(t.transactions, found.id, txn.(status := Failed));
        case Intermediate => PaymentUpdated(t.transactions, found.id, txn.(status := Processing));
      }
    }
  }

  lemma RefundEventFrame(t: Tables, data: KoraData, outcome: Outcome, now: Time, uuid: nat)
    requires RefundEvent(t, data, outcome, now, uuid).Success?
    ensures BusinessKeeps(t, RefundEvent(t, data, outcome, now, uuid).value)
  {
    var i := LatestRefund(t.refunds, data.reference, data.paymentReference).value;
    var refund := t.refunds[i];
    var txn := t.transactions[refund.transactionId];
    match outcome {
      case Succeeded =>
        var refund' := refund.(status := "success", completedAt := Some(now));
        RefundUpdated(t.refunds, i, refund');
        PaymentUpdated(t.transactions, refund.transactionId, txn.(status := Refunded));
        if txn.account.Some? {
          PostOnceFrame(t, t.(refunds := t.refunds[i := refund'],
                              transactions := t.transactions[refund.transactionId := txn.(status := Refunded)]),
                        RefundEntry(uuid, txn.account.value, refund, now));
        }
      case Refused => RefundUpdated(t.refunds, i, refund.(status := "failed"));
      case Intermediate => RefundUpdated(t.refunds, i, refund.(status := "processing"));
    }
  }

  /** A committed business transaction changes only mutable columns of existing rows, appends at most
      one Kora entry and touches no event row. */
  lemma BusinessFrame(t: Tables, e: Event, now: Time, uuid: nat)
    requires BusinessEvent(t, e, now, uuid).Success?
    ensures BusinessKeeps(t, BusinessEvent(t, e, now, uuid).value)
  {
    if IsRefundEvent(e.kind) {
      RefundEventFrame(t, e.data, WebhookOutcome(e.data.status), now, uuid);
    } else {
      PaymentEventFrame(t, IsPayoutEvent(e.kind), e.data, WebhookOutcome(e.data.status), now, uuid);
    }
  }

  /** How any step changes the tables: new rows, mutable columns, appended entries. */
  predicate Grows(t: Tables, t': Tables) {
    && PaymentsExtend(t.transactions, t'.transactions)
    && RefundsExtend(t.refunds, t'.refunds)
    && t.ledger <= t'.ledger
  }

  lemma ApplyGrows(s: State, d: nat, uuid: nat, commits: bool)
    requires Enabled(s, Apply(d, uuid, commits))
    ensures Grows(s.db, DoApply(s, d, uuid, commits).db)
  {
    if Effect(s, d, uuid, commits).Some? {
      BusinessFrame(s.db, s.deliveries[d].event, s.clock, uuid);
    }
  }

  lemma StoreReplyGrows(s: State, c: nat, reply: ProviderReply)
    requires Enabled(s, StoreRefundReply(c, reply))
    ensures Grows(s.db, DoStoreReply(s, c, reply).db)
  {
    var i := s.commands[c].stored.value;
    RefundUpdated(s.db.refunds, i, StoreReply(s.db.refunds[i], reply));
  }

  lemma FinishGrows(t: Tables, id: nat, a: Answer, now: Time)
    ensures Grows(t, Finish(t, id, a, now))
  {
    if id in t.transactions {
      PaymentUpdated(t.transactions, id, FinishedTransaction(t.transactions[id], OutcomeOf(a), now));
    }
  }

  lemma StepFrame(s: State, a: Step)
    requires Enabled(s, a)
    ensures s.clock <= Next(s, a).clock && Grows(s.db, Next(s, a).db)
  {
    match a {
      case Apply(d, uuid, commits) => ApplyGrows(s, d, uuid, commits);
      case StoreRefundReply(c, reply) => StoreReplyGrows(s, c, reply);
      case FinishTask(w, answer) => FinishGrows(s.db, s.workers[w].task, answer, s.clock);
      case _ =>
    }
  }

  /** The ledger is append-only, payments and refunds are never deleted or re-identified, time never goes back. */
  lemma {:induction false} RunFrame(s: State, steps: seq<Step>)
    requires IsRun(s, steps)
    ensures s.clock <= Run(s, steps).clock && Grows(s.db, Run(s, steps).db)
    decreases steps
  {
    if steps != [] {
      StepFrame(s, steps[0]);
      RunFrame(Next(s, steps[0]), steps[1..]);
    }
  }
}
