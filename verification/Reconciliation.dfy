/** payment_hub/reconciliation.py: the task row's life, one database transaction at a time. */
module Reconciliation {
  import opened Wrappers
  import opened KoraTables
  import opened KoraStatus

  // ----- Retry backoff -----

  function Min(a: int, b: int): int {
    if a <= b then a else b
  }

  function Max(a: int, b: int): int {
    if a >= b then a else b
  }

  function Pow2(n: nat): nat {
    if n == 0 then 1 else 2 * Pow2(n - 1)
  }

  /** Seconds to wait after a given attempt: the capped form the worker evaluates. */
  function NextBackoff(attempt: int): int {
    if attempt >= 6 then 300
    else Min(300, 15 * Pow2(Min(Max(attempt - 1, 0), 4)))
  }

  lemma {:induction false} Pow2Monotone(m: nat, n: nat)
    requires m <= n
    ensures Pow2(m) <= Pow2(n)
    decreases n
  {
    if m < n {
      Pow2Monotone(m, n - 1);
    }
  }

  /** The capped exponent never shows: the result is the plain exponential 15 * 2^(a-1), cut at 300. */
  lemma BackoffIsCappedExponential(attempt: int)
    ensures NextBackoff(attempt) == Min(300, 15 * Pow2(Max(attempt - 1, 0)))
  {
    if attempt >= 6 {
      Pow2Monotone(5, attempt - 1);
      assert Pow2(5) == 32;
    }
  }

  lemma BackoffMonotone(a: int, b: int)
    requires a <= b
    ensures 15 <= NextBackoff(a) <= NextBackoff(b) <= 300
  {
    BackoffIsCappedExponential(a);
    BackoffIsCappedExponential(b);
    Pow2Monotone(0, Max(a - 1, 0));
    Pow2Monotone(Max(a - 1, 0), Max(b - 1, 0));
  }

  // ----- Enqueue -----

  const LIFETIME_SECONDS := 24 * 3600
  const LEASE_SECONDS := 300

  function FirstPresent(a: string, b: string): string {
    if a != "" then a else b
  }

  predicate Settled(k: TaskState) {
    k.TaskCompleted? || k.TaskFailed?
  }

  /** The row enqueue_reconciliation leaves for one transaction. */
  function EnqueuedTask(existing: Option<Task>, txn: Transaction, data: KoraData, now: Time): Task {
    var payment := FirstPresent(data.paymentReference, txn.pspTransactionId);
    var word := StatusOf(data.status, data.paymentStatus);
    match existing
    case None =>
      Task(payment, data.transactionReference, word, TaskScheduled, 0,
           Some(now + Seconds(15)), now + Seconds(LIFETIME_SECONDS), None)
    case Some(k) =>
      var k1 := k.(paymentReference := FirstPresent(payment, k.paymentReference),
                   transactionReference := FirstPresent(data.transactionReference, k.transactionReference),
                   providerStatus := word);
      if Settled(k.state) then k1
      else
        var due := if k.nextAttemptAt.Some? then k.nextAttemptAt.value else now;
        k1.(state := TaskScheduled, nextAttemptAt := Some(Min(due, now + Seconds(15))))
  }

  function TaskOf(t: Tables, id: nat): Option<Task> {
    if id in t.tasks then Some(t.tasks[id]) else None
  }

  function Enqueue(t: Tables, id: nat, data: KoraData, now: Time): Tables
    requires id in t.transactions
  {
    t.(tasks := t.tasks[id := EnqueuedTask(TaskOf(t, id), t.transactions[id], data, now)])
  }

  method EnqueueReconciliation(db: Database, id: nat, data: KoraData, now: Time)
    requires id in db.transactions
    modifies db
    ensures db.View() == Enqueue(old(db.View()), id, data, now)
  {
    var txn := db.transactions[id];
    var paymentReference := FirstPresent(data.paymentReference, txn.pspTransactionId);
    var word := StatusOf(data.status, data.paymentStatus);
    if id !in db.tasks {
      db.tasks := db.tasks[id := Task(paymentReference, data.transactionReference, word, TaskScheduled, 0,
                                      Some(now + Seconds(15)), now + Seconds(LIFETIME_SECONDS), None)];
    } else {
      var task := db.tasks[id];
      if paymentReference != "" {
        task := task.(paymentReference := paymentReference);
      }
      if data.transactionReference != "" {
        task := task.(transactionReference := data.transactionReference);
      }
      task := task.(providerStatus := word);
      if !task.state.TaskCompleted? && !task.state.TaskFailed? {
        task := task.(state := TaskScheduled);
        var due := if task.nextAttemptAt.Some? then task.nextAttemptAt.value else now;
        task := task.(nextAttemptAt := Some(Min(due, now + Seconds(15))));
      }
      db.tasks := db.tasks[id := task];
    }
  }

  // ----- Claim -----

  /** A worker's claim: the task it took, the reference it will verify and the instant it took it. */
  datatype Lease = Lease(task: nat, reference: string, claimedAt: Time)

  /** The where-clause of the claim query. */
  predicate Due(k: Task, now: Time) {
    || (k.state.TaskScheduled? && k.nextAttemptAt.Some? && k.nextAttemptAt.value <= now)
    || (k.state.TaskProcessing? && k.lastCheckedAt.Some? && k.lastCheckedAt.value <= now - Seconds(LEASE_SECONDS))
  }

  /** Ascending order of next_attempt_at, absent values last. */
  predicate NotLater(a: Option<Time>, b: Option<Time>) {
    b.None? || (a.Some? && a.value <= b.value)
  }

  /** A row the claim query may return: due, and no due row is scheduled strictly earlier. */
  predicate NextDue(tasks: map<nat, Task>, id: nat, now: Time) {
    && id in tasks
    && Due(tasks[id], now)
    && forall o | o in tasks && Due(tasks[o], now) :: NotLater(tasks[id].nextAttemptAt, tasks[o].nextAttemptAt)
  }

  function ClaimedTask(k: Task, now: Time): Task {
    k.(state := TaskProcessing, attemptCount := k.attemptCount + 1, lastCheckedAt := Some(now))
  }

  function Claim(t: Tables, id: nat, now: Time): Tables
    requires id in t.tasks
  {
    t.(tasks := t.tasks[id := ClaimedTask(t.tasks[id], now)])
  }

  function LeaseOf(t: Tables, id: nat, now: Time): Lease
    requires id in t.tasks
  {
    Lease(id, FirstPresent(t.tasks[id].paymentReference, t.tasks[id].transactionReference), now)
  }

  /** Among finitely many due rows one comes first. */
  lemma {:induction false} SomeNextDue(tasks: map<nat, Task>, due: set<nat>, now: Time) returns (id: nat)
    requires due != {} && due <= tasks.Keys
    ensures id in due
    ensures forall o | o in due :: NotLater(tasks[id].nextAttemptAt, tasks[o].nextAttemptAt)
    decreases due
  {
    var x :| x in due;
    if due == {x} {
      id := x;
    } else {
      var y := SomeNextDue(tasks, due - {x}, now);
      assert forall o | o in due :: o == x || o in due - {x};
      id := if NotLater(tasks[x].nextAttemptAt, tasks[y].nextAttemptAt) then x else y;
    }
  }

  /** The first transaction of reconcile_due_once. It finds nothing exactly when no row is due. */
  method ClaimDue(db: Database, now: Time) returns (lease: Option<Lease>)
    modifies db
    ensures lease.None? <==> forall id | id in old(db.tasks) :: !Due(old(db.tasks)[id], now)
    ensures lease.None? ==> db.View() == old(db.View())
    ensures lease.Some? ==>
              && NextDue(old(db.tasks), lease.value.task, now)
              && lease.value == LeaseOf(old(db.View()), lease.value.task, now)
              && db.View() == Claim(old(db.View()), lease.value.task, now)
  {
    var due := set id | id in db.tasks && Due(db.tasks[id], now);
    if due == {} {
      assert forall id | id in db.tasks && Due(db.tasks[id], now) :: id in due;
      return None;
    }
    ghost var first := SomeNextDue(db.tasks, due, now);
    assert NextDue(db.tasks, first, now);
    var id :| id in due && NextDue(db.tasks, id, now);
    var task := db.tasks[id];
    task := task.(state := TaskProcessing);
    task := task.(attemptCount := task.attemptCount + 1);
    task := task.(lastCheckedAt := Some(now));
    db.tasks := db.tasks[id := task];
    lease := Some(Lease(id, FirstPresent(task.paymentReference, task.transactionReference), now));
  }

  // ----- Finish -----

  /** What the provider's verify call gave: the status fields of a response, or a client error. */
  datatype Answer = Verified(status: string, paymentStatus: string) | ClientError

  function RawStatus(a: Answer): string {
    if a.Verified? then StatusOf(a.status, a.paymentStatus) else ""
  }

  function OutcomeOf(a: Answer): Outcome {
    if a.Verified? then NormalizeKoraStatus(RawStatus(a)) else Intermediate
  }

  predicate Final(s: PaymentStatus) {
    s.Completed? || s.Refunded?
  }

  function FinishedTransaction(txn: Transaction, outcome: Outcome, now: Time): Transaction {
    if outcome.Succeeded? && !Final(txn.status) then txn.(status := Completed, settledAt := Some(now))
    else if outcome.Refused? && !Final(txn.status) then txn.(status := Failed)
    else txn
  }

  function FinishedTask(k: Task, a: Answer, now: Time): Task {
    var k1 := k.(providerStatus := FirstPresent(RawStatus(a), k.providerStatus));
    match OutcomeOf(a)
    case Succeeded => k1.(state := TaskCompleted, nextAttemptAt := None)
    case Refused => k1.(state := TaskFailed, nextAttemptAt := None)
    case Intermediate =>
      if now >= k.expiresAt then k1.(state := TaskExpired, nextAttemptAt := None)
      else k1.(state := TaskScheduled, nextAttemptAt := Some(now + Seconds(NextBackoff(k.attemptCount))))
  }

  /** The last transaction of reconcile_due_once, for the task a lease names. It re-reads both rows
      and never compares the lease with the row: a late worker finishes like a prompt one. */
  function Finish(t: Tables, id: nat, a: Answer, now: Time): Tables {
    if id !in t.tasks then t
    else
      var t1 := if id in t.transactions
                then t.(transactions := t.transactions[id := FinishedTransaction(t.transactions[id], OutcomeOf(a), now)])
                else t;
      t1.(tasks := t.tasks[id := FinishedTask(t.tasks[id], a, now)])
  }

  method FinishLease(db: Database, lease: Lease, answer: Answer, now: Time)
    modifies db
    ensures db.View() == Finish(old(db.View()), lease.task, answer, now)
  {
    var id := lease.task;
    if id !in db.tasks {
      return;
    }
    var rawStatus := if answer.Verified? then StatusOf(answer.status, answer.paymentStatus) else "";
    var normalized := if answer.Verified? then NormalizeKoraStatus(rawStatus) else Intermediate;
    var task := db.tasks[id];
    task := task.(providerStatus := FirstPresent(rawStatus, task.providerStatus));
    if id in db.transactions {
      var transaction := db.transactions[id];
      if normalized.Succeeded? && !Final(transaction.status) {
        transaction := transaction.(status := Completed);
        transaction := transaction.(settledAt := Some(now));
      } else if normalized.Refused? && !Final(transaction.status) {
        transaction := transaction.(status := Failed);
      }
      db.transactions := db.transactions[id := transaction];
    }
    if normalized.Succeeded? {
      task := task.(state := TaskCompleted, nextAttemptAt := None);
    } else if normalized.Refused? {
      task := task.(state := TaskFailed, nextAttemptAt := None);
    } else if now >= task.expiresAt {
      task := task.(state := TaskExpired, nextAttemptAt := None);
    } else {
      task := task.(state := TaskScheduled, nextAttemptAt := Some(now + Seconds(NextBackoff(task.attemptCount))));
    }
    db.tasks := db.tasks[id := task];
  }

  /** One undisturbed round of the worker. */
  method ReconcileDueOnce(db: Database, claimTime: Time, answer: Answer, finishTime: Time) returns (worked: bool)
    modifies db
    ensures !worked <==> forall id | id in old(db.tasks) :: !Due(old(db.tasks)[id], claimTime)
    ensures !worked ==> db.View() == old(db.View())
    ensures worked ==> exists id | NextDue(old(db.tasks), id, claimTime) ::
              db.View() == Finish(Claim(old(db.View()), id, claimTime), id, answer, finishTime)
  {
    var lease := ClaimDue(db, claimTime);
    if lease.None? {
      return false;
    }
    FinishLease(db, lease.value, answer, finishTime);
    return true;
  }

  // ----- Single-step laws of the task row -----

  /** Enqueueing is idempotent about time: it keeps the deadline and the attempts, never reopens a settled
      task, and on a live scheduled task it never postpones the next attempt nor leaves it beyond 15 s. */
  lemma EnqueueKeepsPromises(k: Task, txn: Transaction, data: KoraData, now: Time)
    ensures var k' := EnqueuedTask(Some(k), txn, data, now);
            && k'.expiresAt == k.expiresAt && k'.attemptCount == k.attemptCount && k'.lastCheckedAt == k.lastCheckedAt
            && (Settled(k.state) ==> k'.state == k.state && k'.nextAttemptAt == k.nextAttemptAt)
            && (!Settled(k.state) ==> k'.state.TaskScheduled? && k'.nextAttemptAt.Some? && k'.nextAttemptAt.value <= now + Seconds(15))
            && (k.state.TaskScheduled? && k.nextAttemptAt.Some? ==> k'.nextAttemptAt.value <= k.nextAttemptAt.value)
  {
  }

  /** At or after the deadline a finish parks the task: it is never scheduled again by the worker. */
  lemma FinishAtDeadlineParks(k: Task, a: Answer, now: Time)
    requires now >= k.expiresAt
    ensures var k' := FinishedTask(k, a, now);
            k'.nextAttemptAt.None? && (Settled(k'.state) || k'.state.TaskExpired?)
  {
  }
}
