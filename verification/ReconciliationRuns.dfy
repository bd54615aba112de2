/** The reconciliation worker pool over whole runs: attempts, deadlines, leases and payment statuses. */
module ReconciliationRuns {
  import opened Wrappers
  import opened KoraTables
  import opened KoraStatus
  import opened KoraWebhooks
  import opened KoraSystem
  import opened Reconciliation

  // ----- How a step moves one task -----

  datatype Move = Enqueued | Claimed | Finished(answer: Answer) | Untouched

  /** The task a step enqueues: directly, or as the intermediate branch of a payment event. */
  ghost function Enqueues(s: State, a: Step): Option<nat>
    requires Enabled(s, a)
  {
    match a
    case EnqueueTask(id, _) => Some(id)
    case Apply(d, uuid, commits) =>
      var e := s.deliveries[d].event;
      var found := FindTransaction(s.db.transactions, EventReference(e.data));
      if Effect(s, d, uuid, commits).Some? && !IsRefundEvent(e.kind)
         && WebhookOutcome(e.data.status).Intermediate? && found.Found?
      then Some(found.id) else None
    case _ => None
  }

  ghost function MoveOf(s: State, a: Step, id: nat): Move
    requires Enabled(s, a)
  {
    if Enqueues(s, a) == Some(id) then Enqueued
    else if a.ClaimTask? && a.id == id then Claimed
    else if a.FinishTask? && s.workers[a.w].task == id && id in s.db.tasks then Finished(a.answer)
    else Untouched
  }

  ghost predicate EnqueueResult(before: Option<Task>, after: Option<Task>, now: Time) {
    exists txn: Transaction, data: KoraData :: after == Some(EnqueuedTask(before, txn, data, now))
  }

  lemma PaymentEventTasks(t: Tables, payout: bool, data: KoraData, outcome: Outcome, now: Time, uuid: nat, id: nat)
    requires PaymentEvent(t, payout, data, outcome, now, uuid).Success?
    ensures var t' := PaymentEvent(t, payout, data, outcome, now, uuid).value;
            if outcome.Intermediate? && FindTransaction(t.transactions, EventReference(data)) == Found(id)
            then EnqueueResult(TaskOf(t, id), TaskOf(t', id), now)
            else TaskOf(t', id) == TaskOf(t, id)
  {
    var found := FindTransaction(t.transactions, EventReference(data));
    if outcome.Intermediate? && found == Found(id) {
      var txn := t.transactions[id].(webhookReceivedAt := Some(now), status := Processing);
      assert TaskOf(PaymentEvent(t, payout, data, outcome, now, uuid).value, id) == Some(EnqueuedTask(TaskOf(t, id), txn, data, now));
    }
  }

  lemma RefundEventTasks(t: Tables, data: KoraData, outcome: Outcome, now: Time, uuid: nat)
    requires RefundEvent(t, data, outcome, now, uuid).Success?
    ensures RefundEvent(t, data, outcome, now, uuid).value.tasks == t.tasks
  {
  }

  lemma ApplyMoves(s: State, d: nat, uuid: nat, commits: bool, id: nat)
    requires Enabled(s, Apply(d, uuid, commits))
    ensures var k, k' := TaskOf(s.db, id), TaskOf(DoApply(s, d, uuid, commits).db, id);
            if Enqueues(s, Apply(d, uuid, commits)) == Some(id) then EnqueueResult(k, k', s.clock) else k' == k
  {
    var e := s.deliveries[d].event;
    if Effect(s, d, uuid, commits).Some? {
      if IsRefundEvent(e.kind) {
        RefundEventTasks(s.db, e.data, WebhookOutcome(e.data.status), s.clock, uuid);
      } else {
        PaymentEventTasks(s.db, IsPayoutEvent(e.kind), e.data, WebhookOutcome(e.data.status), s.clock, uuid, id);
      }
    }
  }

  /** Every step moves each task in one of four ways. */
  lemma TaskMoves(s: State, a: Step, id: nat)
    requires Enabled(s, a)
    ensures var k, k' := TaskOf(s.db, id), TaskOf(Next(s, a).db, id);
            match MoveOf(s, a, id)
            case Enqueued => EnqueueResult(k, k', s.clock)
            case Claimed => k.Some? && Due(k.value, s.clock) && k' == Some(ClaimedTask(k.value, s.clock))
            case Finished(answer) => k.Some? && k' == Some(FinishedTask(k.value, answer, s.clock))
            case Untouched => k' == k
  {
    match a {
      case Apply(d, uuid, commits) => ApplyMoves(s, d, uuid, commits, id);
      case EnqueueTask(i, data) =>
        assert TaskOf(Next(s, a).db, i) == Some(EnqueuedTask(TaskOf(s.db, i), s.db.transactions[i], data, s.clock));
      case _ =>
    }
  }

  // ----- The bound on attempts -----

  /** Seconds from a task's birth before which its n-th claim cannot happen. */
  function EarliestClaim(n: int): int
    decreases n
  {
    if n <= 1 then 15 else EarliestClaim(n - 1) + NextBackoff(n - 1)
  }

  lemma {:induction false} EarliestClaimClosed(n: int)
    requires n >= 6
    ensures EarliestClaim(n) == 480 + 300 * (n - 6)
  {
    if n > 6 {
      EarliestClaimClosed(n - 1);
    } else {
      assert EarliestClaim(3) == 60;
      assert Pow2(2) == 4 && Pow2(3) == 8 && Pow2(4) == 16;
      assert EarliestClaim(5) == 240;
    }
  }

  function Birth(k: Task): Time {
    k.expiresAt - Seconds(LIFETIME_SECONDS)
  }

  /** The earliest instant of claim n of a task that was re-enqueued `extra` times. */
  function Pace(k: Task, n: int, extra: nat): Time {
    Birth(k) + Seconds(EarliestClaim(n) - 300 * extra)
  }

  /** The row never runs ahead of its backoff schedule, a re-enqueue buying at most one early claim. */
  predicate Paced(k: Task, now: Time, extra: nat) {
    && Birth(k) <= now
    && (k.attemptCount == 0 ==>
          k.state.TaskScheduled? && k.nextAttemptAt.Some? && k.nextAttemptAt.value >= Birth(k) + Seconds(15))
    && (k.attemptCount > 0 ==>
          && k.lastCheckedAt.Some? && Pace(k, k.attemptCount, extra) <= k.lastCheckedAt.value <= now
          && (k.state.TaskScheduled? ==>
                k.nextAttemptAt.Some?
                && (Pace(k, k.attemptCount + 1, extra) <= k.nextAttemptAt.value
                    || Pace(k, k.attemptCount + 1, extra) <= k.lastCheckedAt.value)))
  }

  /** Only a worker that claimed the task can finish it. */
  predicate LeasesClaimed(s: State) {
    forall w | w in s.workers :: s.workers[w].task in s.db.tasks && s.db.tasks[s.workers[w].task].attemptCount > 0
  }

  lemma ClaimKeepsPace(k: Task, now: Time, extra: nat)
    requires Paced(k, now, extra) && Due(k, now)
    ensures Paced(ClaimedTask(k, now), now, extra)
  {
    BackoffMonotone(k.attemptCount, k.attemptCount);
  }

  lemma FinishKeepsPace(k: Task, a: Answer, now: Time, extra: nat)
    requires Paced(k, now, extra) && k.attemptCount > 0
    ensures Paced(FinishedTask(k, a, now), now, extra)
  {
  }

  lemma EnqueueKeepsPace(k: Task, txn: Transaction, data: KoraData, now: Time, extra: nat)
    requires Paced(k, now, extra)
    ensures Paced(EnqueuedTask(Some(k), txn, data, now), now, extra + 1)
  {
    BackoffMonotone(k.attemptCount, k.attemptCount);
  }

  /** A worker after a step held its lease before, or has just claimed. */
  lemma WorkersStep(s: State, a: Step, w: nat)
    requires Enabled(s, a) && w in Next(s, a).workers
    ensures (w in s.workers && Next(s, a).workers[w] == s.workers[w] && !(a.FinishTask? && a.w == w))
            || (a.ClaimTask? && Next(s, a).workers[w] == LeaseOf(s.db, a.id, s.clock))
  {
  }

  lemma StepKeepsLeasesClaimed(s: State, a: Step)
    requires LeasesClaimed(s) && Enabled(s, a)
    ensures LeasesClaimed(Next(s, a))
  {
    forall w | w in Next(s, a).workers
      ensures var id := Next(s, a).workers[w].task; id in Next(s, a).db.tasks && Next(s, a).db.tasks[id].attemptCount > 0
    {
      WorkersStep(s, a, w);
      var id := Next(s, a).workers[w].task;
      TaskMoves(s, a, id);
      assert TaskOf(s.db, id).Some?;
    }
  }

  lemma StepKeepsPace(s: State, a: Step, id: nat, extra: nat)
    requires LeasesClaimed(s) && Enabled(s, a)
    requires id in s.db.tasks && Paced(s.db.tasks[id], s.clock, extra)
    ensures var s' := Next(s, a);
            id in s'.db.tasks && s'.db.tasks[id].expiresAt == s.db.tasks[id].expiresAt
            && Paced(s'.db.tasks[id], s'.clock, extra + (if MoveOf(s, a, id).Enqueued? then 1 else 0))
  {
    TaskMoves(s, a, id);
    var k := s.db.tasks[id];
    match MoveOf(s, a, id) {
      case Enqueued =>
        var txn: Transaction, data: KoraData :|
          TaskOf(Next(s, a).db, id) == Some(EnqueuedTask(Some(k), txn, data, s.clock));
        EnqueueKeepsPace(k, txn, data, s.clock, extra);
      case Claimed => ClaimKeepsPace(k, s.clock, extra);
      case Finished(answer) => FinishKeepsPace(k, answer, s.clock, extra);
      case Untouched =>
    }
    StepFrame(s, a);
    ClockOnlyTicks(s, a);
  }

  lemma ClockOnlyTicks(s: State, a: Step)
    requires Enabled(s, a)
    ensures Next(s, a).clock == s.clock || (a.Tick? && Next(s, a).db == s.db && Next(s, a).clock >= s.clock)
  {
  }

  /** How often a run enqueues a task. */
  ghost function Enqueuings(s: State, steps: seq<Step>, id: nat): nat
    requires IsRun(s, steps)
    decreases steps
  {
    if steps == [] then 0
    else (if MoveOf(s, steps[0], id).Enqueued? then 1 else 0) + Enqueuings(Next(s, steps[0]), steps[1..], id)
  }

  /** How often a run claims a task at or before an instant. */
  ghost function ClaimsBy(s: State, steps: seq<Step>, id: nat, deadline: Time): nat
    requires IsRun(s, steps)
    decreases steps
  {
    if steps == [] then 0
    else (if MoveOf(s, steps[0], id).Claimed? && s.clock <= deadline then 1 else 0)
         + ClaimsBy(Next(s, steps[0]), steps[1..], id, deadline)
  }

  lemma {:induction false} NoClaimsAfter(s: State, steps: seq<Step>, id: nat, deadline: Time)
    requires IsRun(s, steps) && s.clock > deadline
    ensures ClaimsBy(s, steps, id, deadline) == 0
    decreases steps
  {
    if steps != [] {
      ClockOnlyTicks(s, steps[0]);
      NoClaimsAfter(Next(s, steps[0]), steps[1..], id, deadline);
    }
  }

  lemma TimelyClaimsAreFew(k: Task, now: Time, extra: nat)
    requires Paced(k, now, extra) && k.lastCheckedAt.Some? && k.lastCheckedAt.value <= k.expiresAt
    ensures k.attemptCount <= 292 + extra
  {
    if k.attemptCount > 292 + extra {
      EarliestClaimClosed(k.attemptCount);
    }
  }

  /** From any state on the backoff schedule: the attempts so far and the claims still made in time fit the bound. */
  lemma {:induction false} ClaimsAreBounded(s: State, steps: seq<Step>, id: nat, extra: nat)
    requires LeasesClaimed(s) && IsRun(s, steps)
    requires id in s.db.tasks && Paced(s.db.tasks[id], s.clock, extra)
    ensures var claims := ClaimsBy(s, steps, id, s.db.tasks[id].expiresAt);
            claims > 0 ==> s.db.tasks[id].attemptCount + claims <= 292 + extra + Enqueuings(s, steps, id)
    decreases steps
  {
    if steps != [] {
      var a, s1 := steps[0], Next(s, steps[0]);
      var extra1 := extra + (if MoveOf(s, a, id).Enqueued? then 1 else 0);
      TaskMoves(s, a, id);
      StepKeepsPace(s, a, id, extra);
      StepKeepsLeasesClaimed(s, a);
      ClaimsAreBounded(s1, steps[1..], id, extra1);
      if MoveOf(s, a, id).Claimed? {
        if s.clock <= s.db.tasks[id].expiresAt {
          TimelyClaimsAreFew(s1.db.tasks[id], s1.clock, extra1);
        } else {
          NoClaimsAfter(s, steps, id, s.db.tasks[id].expiresAt);
        }
      }
    }
  }

  /** A task as its first enqueue leaves it, at that instant. */
  predicate NewlyBorn(s: State, id: nat) {
    && id in s.db.tasks && s.db.tasks[id].attemptCount == 0 && s.db.tasks[id].state.TaskScheduled?
    && s.db.tasks[id].nextAttemptAt == Some(s.clock + Seconds(15))
    && s.db.tasks[id].expiresAt == s.clock + Seconds(LIFETIME_SECONDS)
  }

  /** Whatever step brings a task into the table, the task is newly born there. */
  lemma TasksAreBorn(s: State, birth: Step, id: nat)
    ensures Enabled(s, birth) && id !in s.db.tasks && id in Next(s, birth).db.tasks ==> NewlyBorn(Next(s, birth), id)
  {
    if Enabled(s, birth) && id !in s.db.tasks && id in Next(s, birth).db.tasks {
      var s' := Next(s, birth);
      TaskMoves(s, birth, id);
      ClockOnlyTicks(s, birth);
      assert TaskOf(s.db, id) == None && TaskOf(s'.db, id) == Some(s'.db.tasks[id]);
      EnqueuedIsBorn(s', id);
    }
  }

  lemma EnqueuedIsBorn(s: State, id: nat)
    requires EnqueueResult(None, TaskOf(s.db, id), s.clock)
    ensures NewlyBorn(s, id)
  {
  }

  /** From the birth of a task on, in any interleaving of claims, crashes, re-claims and stale finishes, it is claimed
      at most 292 times by its deadline, plus one per re-enqueue. */
  lemma AttemptsAreBounded(s: State, steps: seq<Step>, id: nat)
    requires LeasesClaimed(s) && NewlyBorn(s, id) && IsRun(s, steps)
    ensures ClaimsBy(s, steps, id, s.clock + Seconds(LIFETIME_SECONDS)) <= 292 + Enqueuings(s, steps, id)
  {
    ClaimsAreBounded(s, steps, id, 0);
  }

  /** n claims so far, each at the earliest possible instant. */
  predicate OnPace(k: Task, born: Time, n: nat) {
    && k.attemptCount == n && k.expiresAt == born + Seconds(LIFETIME_SECONDS)
    && k.state.TaskScheduled? && k.nextAttemptAt == Some(born + Seconds(EarliestClaim(n + 1)))
    && (n > 0 ==> k.lastCheckedAt == Some(born + Seconds(EarliestClaim(n))))
  }

  lemma OneRound(k: Task, born: Time, n: nat)
    requires OnPace(k, born, n) && EarliestClaim(n + 1) < LIFETIME_SECONDS
    ensures OnPace(FinishedTask(ClaimedTask(k, k.nextAttemptAt.value), ClientError, k.nextAttemptAt.value), born, n + 1)
  {
  }

  lemma BeforeDeadline(n: nat)
    requires 1 <= n <= 292
    ensures EarliestClaim(n) < LIFETIME_SECONDS
  {
    EarliestMonotone(n, 292);
    EarliestClaimClosed(292);
  }

  lemma {:induction false} EarliestMonotone(m: int, n: int)
    requires 1 <= m <= n
    ensures EarliestClaim(m) <= EarliestClaim(n)
    decreases n - m
  {
    if m < n {
      EarliestMonotone(m + 1, n);
      BackoffMonotone(m, m);
    }
  }

  lemma CountFirst(s: State, a: Step, rest: seq<Step>, id: nat, deadline: Time)
    requires Enabled(s, a) && IsRun(Next(s, a), rest)
    ensures IsRun(s, [a] + rest)
    ensures ClaimsBy(s, [a] + rest, id, deadline)
         == (if MoveOf(s, a, id).Claimed? && s.clock <= deadline then 1 else 0) + ClaimsBy(Next(s, a), rest, id, deadline)
    ensures Enqueuings(s, [a] + rest, id)
         == (if MoveOf(s, a, id).Enqueued? then 1 else 0) + Enqueuings(Next(s, a), rest, id)
  {
    RunFirst(s, a, rest);
    assert ([a] + rest)[1..] == rest;
  }

  /** Claiming and finishing one task, as steps of the system. */
  lemma ClaimThenFinish(s: State, id: nat, w: nat)
    requires id in s.db.tasks && Due(s.db.tasks[id], s.clock) && w !in s.workers
    ensures Enabled(s, ClaimTask(w, id)) && MoveOf(s, ClaimTask(w, id), id) == Claimed
    ensures var s1 := Next(s, ClaimTask(w, id));
            && Enabled(s1, FinishTask(w, ClientError)) && MoveOf(s1, FinishTask(w, ClientError), id) == Finished(ClientError)
            && var s2 := Next(s1, FinishTask(w, ClientError));
               && TaskOf(s2.db, id) == Some(FinishedTask(ClaimedTask(s.db.tasks[id], s.clock), ClientError, s.clock))
               && w !in s2.workers && s2.clock == s1.clock == s.clock
  {
    TaskMoves(s, ClaimTask(w, id), id);
    TaskMoves(Next(s, ClaimTask(w, id)), FinishTask(w, ClientError), id);
  }

  /** One unanswered attempt: wait until the task is due, claim it, finish without a verdict. */
  lemma OneAttempt(k: Task, born: Time, n: nat)
    requires OnPace(k, born, n) && n < 292
    ensures var due := born + Seconds(EarliestClaim(n + 1));
            && Due(k, due) && due < born + Seconds(LIFETIME_SECONDS) && due <= born + Seconds(EarliestClaim(n + 2))
            && OnPace(FinishedTask(ClaimedTask(k, due), ClientError, due), born, n + 1)
  {
    BeforeDeadline(n + 1);
    OneRound(k, born, n);
    EarliestMonotone(n + 1, n + 2);
  }

  function AttemptSteps(id: nat, w: nat, wait: nat): seq<Step> {
    [Tick(wait), ClaimTask(w, id), FinishTask(w, ClientError)]
  }

  ghost function AfterAttempt(s: State, id: nat, w: nat): (r: State)
    requires id in s.db.tasks && Due(s.db.tasks[id], s.clock) && w !in s.workers
    ensures TaskOf(r.db, id) == Some(FinishedTask(ClaimedTask(s.db.tasks[id], s.clock), ClientError, s.clock))
    ensures w !in r.workers && r.clock == s.clock
  {
    ClaimThenFinish(s, id, w);
    Next(Next(s, ClaimTask(w, id)), FinishTask(w, ClientError))
  }

  lemma FinishCounts(s: State, id: nat, w: nat, rest: seq<Step>, deadline: Time)
    requires Enabled(s, FinishTask(w, ClientError)) && MoveOf(s, FinishTask(w, ClientError), id).Finished?
    requires IsRun(Next(s, FinishTask(w, ClientError)), rest)
    ensures var s' := Next(s, FinishTask(w, ClientError));
            var steps := [FinishTask(w, ClientError)] + rest;
            && IsRun(s, steps) && ClaimsBy(s, steps, id, deadline) == ClaimsBy(s', rest, id, deadline)
            && Enqueuings(s, steps, id) == Enqueuings(s', rest, id)
  {
    CountFirst(s, FinishTask(w, ClientError), rest, id, deadline);
  }

  lemma TickCounts(s: State, id: nat, wait: nat, rest: seq<Step>, deadline: Time)
    requires IsRun(s.(clock := s.clock + wait), rest)
    ensures var s' := s.(clock := s.clock + wait);
            var steps := [Tick(wait)] + rest;
            && IsRun(s, steps) && ClaimsBy(s, steps, id, deadline) == ClaimsBy(s', rest, id, deadline)
            && Enqueuings(s, steps, id) == Enqueuings(s', rest, id)
  {
    CountFirst(s, Tick(wait), rest, id, deadline);
  }

  lemma ClaimCounts(s: State, id: nat, w: nat, rest: seq<Step>, deadline: Time)
    requires Enabled(s, ClaimTask(w, id)) && MoveOf(s, ClaimTask(w, id), id).Claimed? && s.clock <= deadline
    requires IsRun(Next(s, ClaimTask(w, id)), rest)
    ensures var s' := Next(s, ClaimTask(w, id));
            var steps := [ClaimTask(w, id)] + rest;
            && IsRun(s, steps) && ClaimsBy(s, steps, id, deadline) == 1 + ClaimsBy(s', rest, id, deadline)
            && Enqueuings(s, steps, id) == Enqueuings(s', rest, id)
  {
    CountFirst(s, ClaimTask(w, id), rest, id, deadline);
  }

  lemma AttemptCounts(s: State, id: nat, w: nat, wait: nat, rest: seq<Step>, deadline: Time)
    requires id in s.db.tasks && Due(s.db.tasks[id], s.clock + wait) && w !in s.workers && s.clock + wait <= deadline
    requires IsRun(AfterAttempt(s.(clock := s.clock + wait), id, w), rest)
    ensures var steps, s' := AttemptSteps(id, w, wait) + rest, AfterAttempt(s.(clock := s.clock + wait), id, w);
            && IsRun(s, steps)
            && ClaimsBy(s, steps, id, deadline) == 1 + ClaimsBy(s', rest, id, deadline)
            && Enqueuings(s, steps, id) == Enqueuings(s', rest, id)
  {
    var s1 := s.(clock := s.clock + wait);
    ClaimThenFinish(s1, id, w);
    var rest1 := [FinishTask(w, ClientError)] + rest;
    FinishCounts(Next(s1, ClaimTask(w, id)), id, w, rest, deadline);
    ClaimCounts(s1, id, w, rest1, deadline);
    TickCounts(s, id, wait, [ClaimTask(w, id)] + rest1, deadline);
    assert AttemptSteps(id, w, wait) + rest == [Tick(wait)] + ([ClaimTask(w, id)] + rest1);
  }

  /** A scheduled task that is not due yet, and a worker with nothing in flight. */
  predicate Waiting(s: State, id: nat, w: nat) {
    && id in s.db.tasks && s.db.tasks[id].state.TaskScheduled? && s.db.tasks[id].nextAttemptAt.Some?
    && s.clock <= s.db.tasks[id].nextAttemptAt.value && w !in s.workers
  }

  function DueAt(s: State, id: nat, w: nat): Time
    requires Waiting(s, id, w)
  {
    s.db.tasks[id].nextAttemptAt.value
  }

  /** The state once the worker has waited, claimed and finished. */
  ghost function Served(s: State, id: nat, w: nat): State
    requires Waiting(s, id, w)
  {
    AfterAttempt(s.(clock := DueAt(s, id, w)), id, w)
  }

  lemma ServedTask(s: State, id: nat, w: nat)
    requires Waiting(s, id, w) && Due(s.db.tasks[id], DueAt(s, id, w))
    ensures var due, s' := DueAt(s, id, w), Served(s, id, w);
            && TaskOf(s'.db, id) == Some(FinishedTask(ClaimedTask(s.db.tasks[id], due), ClientError, due))
            && w !in s'.workers && s'.clock == due
  {
  }

  lemma PacedIsWaiting(s: State, id: nat, w: nat, k: Task)
    requires TaskOf(s.db, id) == Some(k) && w !in s.workers
    requires k.state.TaskScheduled? && k.nextAttemptAt.Some? && s.clock <= k.nextAttemptAt.value
    ensures Waiting(s, id, w) && s.db.tasks[id] == k
  {
  }

  lemma ServedKeepsPace(s: State, id: nat, w: nat, born: Time, n: nat)
    requires Waiting(s, id, w) && OnPace(s.db.tasks[id], born, n) && n < 292
    ensures DueAt(s, id, w) <= born + Seconds(LIFETIME_SECONDS)
    ensures Waiting(Served(s, id, w), id, w) && OnPace(Served(s, id, w).db.tasks[id], born, n + 1)
  {
    var k, due := s.db.tasks[id], DueAt(s, id, w);
    OneAttempt(k, born, n);
    ServedTask(s, id, w);
    PacedIsWaiting(Served(s, id, w), id, w, FinishedTask(ClaimedTask(k, due), ClientError, due));
  }

  lemma ServedCounts(s: State, id: nat, w: nat, rest: seq<Step>, deadline: Time)
    requires Waiting(s, id, w) && DueAt(s, id, w) <= deadline && IsRun(Served(s, id, w), rest)
    ensures var steps := AttemptSteps(id, w, DueAt(s, id, w) - s.clock) + rest;
            && IsRun(s, steps)
            && ClaimsBy(s, steps, id, deadline) == 1 + ClaimsBy(Served(s, id, w), rest, id, deadline)
            && Enqueuings(s, steps, id) == Enqueuings(Served(s, id, w), rest, id)
  {
    var wait := DueAt(s, id, w) - s.clock;
    assert s.(clock := DueAt(s, id, w)) == s.(clock := s.clock + wait);
    AttemptCounts(s, id, w, wait, rest, deadline);
  }

  lemma {:induction false} UnansweredRun(s: State, id: nat, w: nat, born: Time, n: nat) returns (steps: seq<Step>)
    requires Waiting(s, id, w) && OnPace(s.db.tasks[id], born, n) && n <= 292
    ensures IsRun(s, steps) && Enqueuings(s, steps, id) == 0
    ensures ClaimsBy(s, steps, id, born + Seconds(LIFETIME_SECONDS)) == 292 - n
    decreases 292 - n
  {
    if n == 292 {
      steps := [];
    } else {
      ServedKeepsPace(s, id, w, born, n);
      var rest := UnansweredRun(Served(s, id, w), id, w, born, n + 1);
      ServedCounts(s, id, w, rest, born + Seconds(LIFETIME_SECONDS));
      steps := AttemptSteps(id, w, DueAt(s, id, w) - s.clock) + rest;
    }
  }

  lemma NewTaskIsOnPace(s: State, id: nat, data: KoraData, w: nat)
    requires id in s.db.transactions && id !in s.db.tasks && w !in s.workers
    ensures var s1 := Next(s, EnqueueTask(id, data));
            Waiting(s1, id, w) && OnPace(s1.db.tasks[id], s.clock, 0)
  {
  }

  /** The bound is sharp: from the birth of any task one worker that never gets a verdict claims it 292 times by its
      deadline, without a single re-enqueue. */
  lemma BoundIsAttained(s: State, s1: State, id: nat, data: KoraData, w: nat)
    requires id in s.db.transactions && id !in s.db.tasks && w !in s.workers && s1 == Next(s, EnqueueTask(id, data))
    ensures exists steps :: IsRun(s1, steps) && Enqueuings(s1, steps, id) == 0
              && ClaimsBy(s1, steps, id, s.clock + Seconds(LIFETIME_SECONDS)) == 292
  {
    NewTaskIsOnPace(s, id, data, w);
    var steps := UnansweredRun(s1, id, w, s.clock, 0);
  }

  // ----- The payment status under reconciliation -----

  /** The steps of reconcile_due_once and its callers, without the webhook handlers. */
  predicate IsReconciliation(a: Step) {
    a.Tick? || a.EnqueueTask? || a.ClaimTask? || a.FinishTask? || a.CrashWorker?
  }

  function Rank(s: PaymentStatus): nat {
    match s
    case Completed => 2
    case Refunded => 2
    case Failed => 1
    case _ => 0
  }

  /** The step writes settled_at of the payment. */
  predicate WritesSettlement(s: State, a: Step, id: nat) {
    && a.FinishTask? && a.w in s.workers && s.workers[a.w].task == id && id in s.db.tasks && id in s.db.transactions
    && OutcomeOf(a.answer).Succeeded? && !Final(s.db.transactions[id].status)
  }

  lemma StepNeverLowersStatus(s: State, a: Step, id: nat)
    requires Enabled(s, a) && IsReconciliation(a) && id in s.db.transactions
    ensures var s' := Next(s, a);
            && id in s'.db.transactions
            && Rank(s.db.transactions[id].status) <= Rank(s'.db.transactions[id].status)
            && (Final(s.db.transactions[id].status) ==> s'.db.transactions[id] == s.db.transactions[id])
            && (WritesSettlement(s, a, id) ==>
                  s'.db.transactions[id].status.Completed? && s'.db.transactions[id].settledAt == Some(s.clock))
            && (!WritesSettlement(s, a, id) ==> s'.db.transactions[id].settledAt == s.db.transactions[id].settledAt)
  {
  }

  ghost function SettlementWrites(s: State, steps: seq<Step>, id: nat): nat
    requires IsRun(s, steps)
    decreases steps
  {
    if steps == [] then 0
    else (if WritesSettlement(s, steps[0], id) then 1 else 0) + SettlementWrites(Next(s, steps[0]), steps[1..], id)
  }

  /** Across any interleaving of any number of workers, however stale, the status never moves down, a final
      payment is never touched again, and settled_at is written at most once, exactly when the run completes it. */
  lemma {:induction false} StatusIsMonotone(s: State, steps: seq<Step>, id: nat)
    requires IsRun(s, steps) && (forall a | a in steps :: IsReconciliation(a)) && id in s.db.transactions
    ensures var s' := Run(s, steps);
            && id in s'.db.transactions
            && Rank(s.db.transactions[id].status) <= Rank(s'.db.transactions[id].status)
            && SettlementWrites(s, steps, id) == (if !Final(s.db.transactions[id].status) && Final(s'.db.transactions[id].status) then 1 else 0)
            && (Final(s.db.transactions[id].status) ==> s'.db.transactions[id] == s.db.transactions[id])
            && (SettlementWrites(s, steps, id) == 0 ==> s'.db.transactions[id].settledAt == s.db.transactions[id].settledAt)
    decreases steps
  {
    if steps != [] {
      StepNeverLowersStatus(s, steps[0], id);
      assert forall a | a in steps[1..] :: a in steps;
      StatusIsMonotone(Next(s, steps[0]), steps[1..], id);
    }
  }

  // ----- Leases -----

  /** Discipline of a run: in-flight claims are younger than five minutes, and no enqueue meets one. */
  ghost predicate Disciplined(s: State, steps: seq<Step>)
    requires IsRun(s, steps)
    decreases steps
  {
    && (forall w | w in s.workers :: s.clock < s.workers[w].claimedAt + Seconds(LEASE_SECONDS))
    && (steps != [] ==>
          && (forall w | w in s.workers :: Enqueues(s, steps[0]) != Some(s.workers[w].task))
          && Disciplined(Next(s, steps[0]), steps[1..]))
  }

  predicate LeaseHolds(s: State, w: nat)
    requires w in s.workers
  {
    var lease := s.workers[w];
    && lease.task in s.db.tasks
    && s.db.tasks[lease.task].state.TaskProcessing?
    && s.db.tasks[lease.task].lastCheckedAt == Some(lease.claimedAt)
  }

  /** Every claim in flight is the current one of its task, and no two are on one task. */
  predicate LeaseInv(s: State) {
    && (forall w | w in s.workers :: LeaseHolds(s, w))
    && (forall w, v | w in s.workers && v in s.workers && s.workers[w].task == s.workers[v].task :: w == v)
  }

  /** A prompt task in flight is not due, so nobody else can claim it. */
  lemma HeldTaskIsNotDue(s: State, w: nat)
    requires w in s.workers && LeaseHolds(s, w) && s.clock < s.workers[w].claimedAt + Seconds(LEASE_SECONDS)
    ensures !Due(s.db.tasks[s.workers[w].task], s.clock)
  {
  }

  lemma StepKeepsLease(s: State, a: Step, w: nat)
    requires LeaseInv(s) && Enabled(s, a) && w in Next(s, a).workers
    requires w in s.workers ==> s.clock < s.workers[w].claimedAt + Seconds(LEASE_SECONDS)
    requires w in s.workers ==> Enqueues(s, a) != Some(s.workers[w].task)
    ensures LeaseHolds(Next(s, a), w)
    ensures a.ClaimTask? && w in s.workers ==> s.workers[w].task != a.id
  {
    WorkersStep(s, a, w);
    TaskMoves(s, a, Next(s, a).workers[w].task);
    if w in s.workers {
      assert LeaseHolds(s, w);
      HeldTaskIsNotDue(s, w);
    }
  }

  lemma StepKeepsLeases(s: State, a: Step)
    requires LeaseInv(s) && Enabled(s, a)
    requires forall w | w in s.workers :: s.clock < s.workers[w].claimedAt + Seconds(LEASE_SECONDS)
    requires forall w | w in s.workers :: Enqueues(s, a) != Some(s.workers[w].task)
    ensures LeaseInv(Next(s, a))
  {
    var s' := Next(s, a);
    forall w | w in s'.workers ensures LeaseHolds(s', w) {
      StepKeepsLease(s, a, w);
    }
    forall w, v | w in s'.workers && v in s'.workers && s'.workers[w].task == s'.workers[v].task ensures w == v {
      WorkersStep(s, a, w);
      WorkersStep(s, a, v);
      StepKeepsLease(s, a, w);
      StepKeepsLease(s, a, v);
    }
  }

  /** Under the discipline, claims of one task never overlap in any reachable state. */
  lemma {:induction false} LeasesAreExclusive(s: State, steps: seq<Step>)
    requires LeaseInv(s) && IsRun(s, steps) && Disciplined(s, steps)
    ensures LeaseInv(Run(s, steps))
    decreases steps
  {
    if steps != [] {
      StepKeepsLeases(s, steps[0]);
      LeasesAreExclusive(Next(s, steps[0]), steps[1..]);
    }
  }

  /** Under the discipline, a completed or failed task stays so for ever. */
  lemma {:induction false} SettledTasksAbsorb(s: State, steps: seq<Step>, id: nat)
    requires LeaseInv(s) && IsRun(s, steps) && Disciplined(s, steps)
    requires id in s.db.tasks && Reconciliation.Settled(s.db.tasks[id].state)
    ensures id in Run(s, steps).db.tasks && Run(s, steps).db.tasks[id].state == s.db.tasks[id].state
    ensures Run(s, steps).db.tasks[id].attemptCount == s.db.tasks[id].attemptCount
    decreases steps
  {
    if steps != [] {
      assert forall w | w in s.workers :: LeaseHolds(s, w);
      TaskMoves(s, steps[0], id);
      StepKeepsLeases(s, steps[0]);
      SettledTasksAbsorb(Next(s, steps[0]), steps[1..], id);
    }
  }

  /** Under the discipline, a task parked at its deadline is never claimed again unless it is enqueued again. */
  lemma {:induction false} ExpiredTasksRest(s: State, steps: seq<Step>, id: nat)
    requires LeaseInv(s) && IsRun(s, steps) && Disciplined(s, steps)
    requires id in s.db.tasks && s.db.tasks[id].state.TaskExpired? && Enqueuings(s, steps, id) == 0
    ensures TaskOf(Run(s, steps).db, id) == TaskOf(s.db, id)
    decreases steps
  {
    if steps != [] {
      assert forall w | w in s.workers :: LeaseHolds(s, w);
      TaskMoves(s, steps[0], id);
      StepKeepsLeases(s, steps[0]);
      ExpiredTasksRest(Next(s, steps[0]), steps[1..], id);
    }
  }

  /** Without the discipline a step takes a task out of a settled state exactly when it is a late finish whose
      answer disagrees with the recorded one. */
  lemma SettledTaskDisturbedIff(s: State, a: Step, id: nat)
    requires Enabled(s, a) && id in s.db.tasks && Reconciliation.Settled(s.db.tasks[id].state)
    ensures id in Next(s, a).db.tasks
    ensures Next(s, a).db.tasks[id].state != s.db.tasks[id].state <==>
            a.FinishTask? && s.workers[a.w].task == id
            && OutcomeOf(a.answer) != (if s.db.tasks[id].state.TaskCompleted? then Succeeded else Refused)
  {
    TaskMoves(s, a, id);
  }

  function LateSteps(id: nat, w: nat, v: nat): seq<Step> {
    [ClaimTask(w, id), Tick(Seconds(LEASE_SECONDS)), ClaimTask(v, id), FinishTask(v, Verified("success", "")), FinishTask(w, ClientError)]
  }

  /** The states of the run: claimed, late, claimed again, completed. */
  lemma LateStates(s: State, id: nat, w: nat, v: nat)
    requires id in s.db.tasks && Due(s.db.tasks[id], s.clock) && w != v && w !in s.workers && v !in s.workers
    ensures Enabled(s, ClaimTask(w, id))
    ensures var s1 := Next(s, ClaimTask(w, id));
            var s2 := Next(s1, Tick(Seconds(LEASE_SECONDS)));
            && s2.clock == s.clock + Seconds(LEASE_SECONDS) && id in s2.db.tasks && w in s2.workers && s2.workers[w].task == id
            && s2.db.tasks[id].expiresAt == s.db.tasks[id].expiresAt
            && Enabled(s2, ClaimTask(v, id))
            && var s3 := Next(s2, ClaimTask(v, id));
               && v in s3.workers && s3.workers[v].task == id && w in s3.workers && s3.workers[w].task == id
               && id in s3.db.tasks && s3.clock == s2.clock && s3.db.tasks[id].expiresAt == s.db.tasks[id].expiresAt
  {
  }

  lemma FinishResult(s: State, id: nat, w: nat, a: Answer)
    requires id in s.db.tasks && w in s.workers && s.workers[w].task == id
    ensures Enabled(s, FinishTask(w, a))
    ensures var s' := Next(s, FinishTask(w, a));
            && TaskOf(s'.db, id) == Some(FinishedTask(s.db.tasks[id], a, s.clock)) && s'.clock == s.clock
            && forall v | v in s.workers && v != w :: v in s'.workers && s'.workers[v] == s.workers[v]
  {
  }

  lemma SuccessAnswer()
    ensures OutcomeOf(Verified("success", "")).Succeeded?
  {
    assert Strip("success") == "success" && Lower("success") == "success";
  }

  /** Why the discipline is needed: a run of two workers in which one is five minutes late, the task is claimed and
      completed by the other meanwhile, and the late finish puts the completed task back on the schedule. */
  lemma LateFinishReopens(s: State, id: nat, w: nat, v: nat)
    requires id in s.db.tasks && Due(s.db.tasks[id], s.clock) && s.clock + Seconds(LEASE_SECONDS) < s.db.tasks[id].expiresAt
    requires w != v && w !in s.workers && v !in s.workers
    ensures var steps := LateSteps(id, w, v);
            && IsRun(s, steps[..4]) && id in Run(s, steps[..4]).db.tasks && Run(s, steps[..4]).db.tasks[id].state.TaskCompleted?
            && IsRun(s, steps) && id in Run(s, steps).db.tasks && Run(s, steps).db.tasks[id].state.TaskScheduled?
  {
    var steps := LateSteps(id, w, v);
    var s4 := CompletedMeanwhile(s, id, w, v);
    FinishResult(s4, id, w, ClientError);
    assert TaskOf(Next(s4, steps[4]).db, id).Some?;
    RunOne(s4, steps[4]);
    RunJoins(s, steps[..4], [steps[4]]);
    assert steps == steps[..4] + [steps[4]];
  }

  lemma CompletedMeanwhile(s: State, id: nat, w: nat, v: nat) returns (s4: State)
    requires id in s.db.tasks && Due(s.db.tasks[id], s.clock)
    requires w != v && w !in s.workers && v !in s.workers
    ensures IsRun(s, LateSteps(id, w, v)[..4]) && s4 == Run(s, LateSteps(id, w, v)[..4])
    ensures id in s4.db.tasks && s4.db.tasks[id].state.TaskCompleted? && s4.db.tasks[id].expiresAt == s.db.tasks[id].expiresAt
    ensures w in s4.workers && s4.workers[w].task == id && s4.clock == s.clock + Seconds(LEASE_SECONDS)
  {
    var a, b, c, d := ClaimTask(w, id), Tick(Seconds(LEASE_SECONDS)), ClaimTask(v, id), FinishTask(v, Verified("success", ""));
    LateStates(s, id, w, v);
    SuccessAnswer();
    var s3 := Next(Next(Next(s, a), b), c);
    FinishResult(s3, id, v, d.answer);
    s4 := Next(s3, d);
    assert TaskOf(s4.db, id).Some?;
    FourSteps(s, a, b, c, d);
    assert LateSteps(id, w, v)[..4] == [a, b, c, d];
  }

  lemma {:induction false} RunJoins(s: State, xs: seq<Step>, ys: seq<Step>)
    requires IsRun(s, xs) && IsRun(Run(s, xs), ys)
    ensures IsRun(s, xs + ys) && Run(s, xs + ys) == Run(Run(s, xs), ys)
    decreases xs
  {
    if xs == [] {
      assert xs + ys == ys;
    } else {
      assert (xs + ys)[1..] == xs[1..] + ys;
      RunJoins(Next(s, xs[0]), xs[1..], ys);
    }
  }

  lemma FourSteps(s: State, a: Step, b: Step, c: Step, d: Step)
    requires Enabled(s, a) && Enabled(Next(s, a), b) && Enabled(Next(Next(s, a), b), c)
    requires Enabled(Next(Next(Next(s, a), b), c), d)
    ensures IsRun(s, [a, b, c, d]) && Run(s, [a, b, c, d]) == Next(Next(Next(Next(s, a), b), c), d)
  {
    var s1 := Next(s, a);
    var s2 := Next(s1, b);
    RunOne(Next(s2, c), d);
    RunFirst(s2, c, [d]);
    RunFirst(s1, b, [c, d]);
    RunFirst(s, a, [b, c, d]);
  }

  /** Nothing but claims, crashes and time touches the task. */
  ghost predicate Unanswered(s: State, steps: seq<Step>, id: nat)
    requires IsRun(s, steps)
    decreases steps
  {
    steps == [] ||
    (MoveOf(s, steps[0], id).Untouched? && Unanswered(Next(s, steps[0]), steps[1..], id))
  }

  lemma {:induction false} UnansweredKeepsTask(s: State, steps: seq<Step>, id: nat)
    requires IsRun(s, steps) && Unanswered(s, steps, id)
    ensures TaskOf(Run(s, steps).db, id) == TaskOf(s.db, id)
    decreases steps
  {
    if steps != [] {
      TaskMoves(s, steps[0], id);
      UnansweredKeepsTask(Next(s, steps[0]), steps[1..], id);
    }
  }

  /** With no discipline at all, two successive claims of a task with no finish and no enqueue between them
      are at least five minutes apart. */
  lemma ReclaimWaitsForLease(s: State, w: nat, id: nat, steps: seq<Step>, v: nat)
    requires Enabled(s, ClaimTask(w, id))
    requires IsRun(Next(s, ClaimTask(w, id)), steps) && Unanswered(Next(s, ClaimTask(w, id)), steps, id)
    requires Enabled(Run(Next(s, ClaimTask(w, id)), steps), ClaimTask(v, id))
    ensures Run(Next(s, ClaimTask(w, id)), steps).clock >= s.clock + Seconds(LEASE_SECONDS)
  {
    UnansweredKeepsTask(Next(s, ClaimTask(w, id)), steps, id);
  }

  // ----- The task row over whole runs -----

  ghost function Claims(s: State, steps: seq<Step>, id: nat): nat
    requires IsRun(s, steps)
    decreases steps
  {
    if steps == [] then 0
    else (if MoveOf(s, steps[0], id).Claimed? then 1 else 0) + Claims(Next(s, steps[0]), steps[1..], id)
  }

  /** One task per payment for life: the row is never removed, its deadline never moves, and its attempt count is
      the number of its claims. */
  lemma {:induction false} TaskRowPersists(s: State, steps: seq<Step>, id: nat)
    requires IsRun(s, steps) && id in s.db.tasks
    ensures var s' := Run(s, steps);
            && id in s'.db.tasks
            && s'.db.tasks[id].expiresAt == s.db.tasks[id].expiresAt
            && s'.db.tasks[id].attemptCount == s.db.tasks[id].attemptCount + Claims(s, steps, id)
    decreases steps
  {
    if steps != [] {
      TaskMoves(s, steps[0], id);
      TaskRowPersists(Next(s, steps[0]), steps[1..], id);
    }
  }
}
