/** What a reconciliation run makes of a payment and its task, by the words the provider answered. */
module ReconciliationOutcomes {
  import opened Wrappers
  import opened KoraTables
  import opened KoraStatus
  import opened KoraSystem
  import opened Reconciliation
  import opened ReconciliationRuns

  // ----- The provider's words -----

  /** The word of an answer: its status without outer blanks, or its payment status where it has no status. */
  function WordOf(a: Answer): string {
    match a
    case Verified(status, paymentStatus) => Strip(if status != "" then status else paymentStatus)
    case ClientError => ""
  }

  predicate SaysSuccess(a: Answer) {
    a.Verified? && SpellsSuccess(WordOf(a))
  }

  predicate SaysRefusal(a: Answer) {
    a.Verified? && SpellsRefusal(WordOf(a))
  }

  lemma AnswerMeaning(a: Answer)
    ensures OutcomeOf(a) == if SaysSuccess(a) then Succeeded else if SaysRefusal(a) then Refused else Intermediate
    ensures !(SaysSuccess(a) && SaysRefusal(a))
  {
    if a.Verified? {
      VerdictsAreDisjoint(WordOf(a));
      WorkerReadsWords(a.status, a.paymentStatus);
      NormalizeTwice(if a.status != "" then a.status else a.paymentStatus);
    }
  }

  predicate IsFinal(s: PaymentStatus) {
    s == Completed || s == Refunded
  }

  // ----- One finish -----

  /** A finish settles task and payment alike: a success completes both, a refusal fails both, a payment already completed
      or refunded excepted; any other answer leaves the payment and schedules the task again before its deadline, or parks
      it as expired. */
  lemma FinishMakesThemAgree(t: Tables, id: nat, a: Answer, now: Time)
    requires id in t.tasks && id in t.transactions
    ensures var t' := Finish(t, id, a, now);
            var k, txn, k', txn' := t.tasks[id], t.transactions[id], t'.tasks[id], t'.transactions[id];
            && (SaysSuccess(a) ==>
                  && k'.state == TaskCompleted && k'.nextAttemptAt == None
                  && txn' == if IsFinal(txn.status) then txn else txn.(status := Completed, settledAt := Some(now)))
            && (SaysRefusal(a) ==>
                  && k'.state == TaskFailed && k'.nextAttemptAt == None
                  && txn' == if IsFinal(txn.status) then txn else txn.(status := Failed))
            && (!SaysSuccess(a) && !SaysRefusal(a) ==>
                  && txn' == txn
                  && (now >= k.expiresAt ==> k'.state == TaskExpired && k'.nextAttemptAt == None)
                  && (now < k.expiresAt ==>
                        && k'.state == TaskScheduled && k'.nextAttemptAt.Some?
                        && now + 15_000_000 <= k'.nextAttemptAt.value <= now + 300_000_000))
            && k'.expiresAt == k.expiresAt && k'.attemptCount == k.attemptCount && k'.lastCheckedAt == k.lastCheckedAt
            && k'.paymentReference == k.paymentReference && k'.transactionReference == k.transactionReference
            && k'.providerStatus == (if WordOf(a) != "" then Lower(WordOf(a)) else k.providerStatus)
  {
    AnswerMeaning(a);
    BackoffMonotone(t.tasks[id].attemptCount, t.tasks[id].attemptCount);
    assert Lower("") == "";
    assert a.Verified? ==> |Lower(WordOf(a))| == |WordOf(a)|;
  }

  /** Nothing else moves in a finish, and a finish of a vanished task does nothing. */
  lemma FinishTouchesOneTask(t: Tables, id: nat, a: Answer, now: Time)
    ensures var t' := Finish(t, id, a, now);
            && (id !in t.tasks ==> t' == t)
            && t'.tasks.Keys == t.tasks.Keys && t'.transactions.Keys == t.transactions.Keys
            && (forall o | o in t.tasks && o != id :: t'.tasks[o] == t.tasks[o])
            && (forall o | o in t.transactions && o != id :: t'.transactions[o] == t.transactions[o])
            && t'.refunds == t.refunds && t'.ledger == t.ledger && t'.events == t.events
  {
  }

  // ----- Whole runs -----

  /** The step is a finish of this payment's task with such an answer. */
  predicate FinishesWith(s: State, a: Step, id: nat, success: bool) {
    && a.FinishTask? && a.w in s.workers && s.workers[a.w].task == id && id in s.db.tasks
    && (if success then SaysSuccess(a.answer) else SaysRefusal(a.answer))
  }

  ghost predicate SomeFinish(s: State, steps: seq<Step>, id: nat, success: bool)
    requires IsRun(s, steps)
    decreases steps
  {
    steps != [] && (FinishesWith(s, steps[0], id, success) || SomeFinish(Next(s, steps[0]), steps[1..], id, success))
  }

  lemma StepSettlesPayment(s: State, a: Step, id: nat)
    requires Enabled(s, a) && IsReconciliation(a) && id in s.db.transactions
    ensures var before, s' := s.db.transactions[id].status, Next(s, a);
            && id in s'.db.transactions
            && s'.db.transactions[id].status ==
                 if IsFinal(before) then before
                 else if FinishesWith(s, a, id, true) then Completed
                 else if FinishesWith(s, a, id, false) then Failed
                 else before
  {
    if a.FinishTask? {
      AnswerMeaning(a.answer);
    }
  }

  /** Under reconciliation alone, with any number of workers however stale: a payment that was not final ends completed if
      some finish of its task succeeded, failed if none did and some was refused, and otherwise as it was; a final payment
      stays. */
  lemma {:induction false} PaymentFollowsFinishes(s: State, steps: seq<Step>, id: nat)
    requires IsRun(s, steps) && (forall a | a in steps :: IsReconciliation(a)) && id in s.db.transactions
    ensures id in Run(s, steps).db.transactions
    ensures var before := s.db.transactions[id].status;
            Run(s, steps).db.transactions[id].status ==
              if IsFinal(before) then before
              else if SomeFinish(s, steps, id, true) then Completed
              else if SomeFinish(s, steps, id, false) then Failed
              else before
    decreases steps
  {
    if steps != [] {
      StepSettlesPayment(s, steps[0], id);
      assert forall a | a in steps[1..] :: a in steps;
      PaymentFollowsFinishes(Next(s, steps[0]), steps[1..], id);
      if steps[0].FinishTask? {
        AnswerMeaning(steps[0].answer);
      }
    }
  }

  // ----- What an enqueue writes, and what a worker verifies -----

  /** The task an enqueue leaves: the references of the event where it has them, the payment's provider id next, the old
      ones last; the status word of the event; a new task starts its 24 hours now and is due in 15 s. */
  lemma EnqueueWrites(existing: Option<Task>, txn: Transaction, data: KoraData, now: Time)
    ensures var k := EnqueuedTask(existing, txn, data, now);
            && k.providerStatus == Lower(Strip(if data.status != "" then data.status else data.paymentStatus))
            && (data.paymentReference != "" ==> k.paymentReference == data.paymentReference)
            && (data.paymentReference == "" && txn.pspTransactionId != "" ==> k.paymentReference == txn.pspTransactionId)
            && (data.paymentReference == "" && txn.pspTransactionId == "" ==>
                  k.paymentReference == if existing.Some? then existing.value.paymentReference else "")
            && (data.transactionReference != "" ==> k.transactionReference == data.transactionReference)
            && (data.transactionReference == "" ==>
                  k.transactionReference == if existing.Some? then existing.value.transactionReference else "")
            && (existing.None? ==>
                  && k.state == TaskScheduled && k.attemptCount == 0 && k.lastCheckedAt == None
                  && k.nextAttemptAt == Some(now + 15_000_000) && k.expiresAt == now + 86_400_000_000)
            && (existing.Some? ==>
                  && k.expiresAt == existing.value.expiresAt && k.attemptCount == existing.value.attemptCount
                  && k.lastCheckedAt == existing.value.lastCheckedAt
                  && (if existing.value.state == TaskCompleted || existing.value.state == TaskFailed
                      then k.state == existing.value.state && k.nextAttemptAt == existing.value.nextAttemptAt
                      else
                        && k.state == TaskScheduled
                        && var due := if existing.value.nextAttemptAt.Some? then existing.value.nextAttemptAt.value else now;
                           k.nextAttemptAt == Some(if due <= now + 15_000_000 then due else now + 15_000_000)))
  {
  }

  /** A claim takes a task that is scheduled for now or earlier, or that another worker took at least five minutes ago; it
      verifies the payment reference, or the transaction reference where there is none. */
  lemma ClaimMeaning(t: Tables, id: nat, now: Time)
    requires id in t.tasks
    ensures var k := t.tasks[id];
            && (Due(k, now) <==>
                  || (k.state == TaskScheduled && k.nextAttemptAt.Some? && k.nextAttemptAt.value <= now)
                  || (k.state == TaskProcessing && k.lastCheckedAt.Some? && k.lastCheckedAt.value + 300_000_000 <= now))
            && Claim(t, id, now).tasks[id] == k.(state := TaskProcessing, attemptCount := k.attemptCount + 1, lastCheckedAt := Some(now))
            && LeaseOf(t, id, now) == Lease(id, if k.paymentReference != "" then k.paymentReference else k.transactionReference, now)
  {
  }

  /** The task a query returns is scheduled no later than any other due task; one without a schedule comes last. */
  lemma EarliestFirst(tasks: map<nat, Task>, id: nat, o: nat, now: Time)
    requires NextDue(tasks, id, now) && o in tasks && Due(tasks[o], now) && tasks[o].nextAttemptAt.Some?
    ensures tasks[id].nextAttemptAt.Some? && tasks[id].nextAttemptAt.value <= tasks[o].nextAttemptAt.value
  {
  }
}
