/** The idempotence of deliveries: event ids, concurrent copies of one event, crashes between commits. */
module KoraInbox {
  import opened Wrappers
  import opened KoraTables
  import opened KoraWebhooks
  import opened KoraSystem

  predicate InFlight(d: Delivery) {
    !d.Closed?
  }

  /** Marked processed exactly when applied, applied once, and at most one delivery holds a received row. */
  predicate InboxInv(s: State) {
    && (forall i, j | 0 <= i < j < |s.applied| :: s.applied[i] != s.applied[j])
    && (forall id | id in s.applied :: id in s.db.events && s.db.events[id].status.Processed?)
    && (forall id | id in s.db.events && s.db.events[id].status.Processed? :: id in s.applied)
    && (forall d | d in s.deliveries && InFlight(s.deliveries[d]) ::
          var id := s.deliveries[d].event.id;
          id in s.db.events && s.db.events[id].status.Received? && s.db.events[id].event == s.deliveries[d].event)
    && (forall d, f | d in s.deliveries && f in s.deliveries && InFlight(s.deliveries[d]) && InFlight(s.deliveries[f])
                      && s.deliveries[d].event.id == s.deliveries[f].event.id :: d == f)
  }

  lemma ApplyKeepsInbox(s: State, d: nat, uuid: nat, commits: bool)
    requires InboxInv(s) && Enabled(s, Apply(d, uuid, commits))
    ensures InboxInv(Next(s, Apply(d, uuid, commits)))
  {
    var e := s.deliveries[d].event;
    assert e.id !in s.applied;
    if Effect(s, d, uuid, commits).Some? {
      BusinessFrame(s.db, e, s.clock, uuid);
    }
  }

  lemma DeliverKeepsInbox(s: State, d: nat, e: Event)
    requires InboxInv(s) && Enabled(s, Deliver(d, e))
    ensures InboxInv(DoDeliver(s, d, e))
  {
  }

  lemma MarkFailedKeepsInbox(s: State, d: nat)
    requires InboxInv(s) && Enabled(s, MarkFailed(d))
    ensures InboxInv(DoMarkFailed(s, d))
  {
  }

  lemma OthersIgnoreInbox(s: State, a: Step)
    requires Enabled(s, a) && !a.Deliver? && !a.Apply? && !a.MarkFailed? && !a.CrashDelivery?
    ensures var s' := Next(s, a); s'.applied == s.applied && s'.deliveries == s.deliveries && s'.db.events == s.db.events
  {
  }

  lemma StepKeepsInbox(s: State, a: Step)
    requires InboxInv(s) && Enabled(s, a)
    ensures InboxInv(Next(s, a))
  {
    match a {
      case Apply(d, uuid, commits) => ApplyKeepsInbox(s, d, uuid, commits);
      case Deliver(d, e) => DeliverKeepsInbox(s, d, e);
      case MarkFailed(d) => MarkFailedKeepsInbox(s, d);
      case CrashDelivery(d) =>
      case _ => OthersIgnoreInbox(s, a);
    }
  }

  lemma {:induction false} RunKeepsInbox(s: State, steps: seq<Step>)
    requires InboxInv(s) && IsRun(s, steps)
    ensures InboxInv(Run(s, steps))
    decreases steps
  {
    if steps != [] {
      StepKeepsInbox(s, steps[0]);
      RunKeepsInbox(Next(s, steps[0]), steps[1..]);
    }
  }

  // ----- At most once, and what is never retried -----

  /** The step commits the business effect of this event id. */
  ghost predicate CommitsEvent(s: State, a: Step, id: string)
    requires Enabled(s, a)
  {
    a.Apply? && Effect(s, a.d, a.uuid, a.commits).Some? && s.deliveries[a.d].event.id == id
  }

  ghost function Commits(s: State, steps: seq<Step>, id: string): nat
    requires IsRun(s, steps)
    decreases steps
  {
    if steps == [] then 0
    else (if CommitsEvent(s, steps[0], id) then 1 else 0) + Commits(Next(s, steps[0]), steps[1..], id)
  }

  predicate IsProcessed(s: State, id: string) {
    id in s.db.events && s.db.events[id].status.Processed?
  }

  lemma CommitMarksProcessed(s: State, a: Step, id: string)
    requires InboxInv(s) && Enabled(s, a)
    ensures CommitsEvent(s, a, id) <==> !IsProcessed(s, id) && IsProcessed(Next(s, a), id)
    ensures IsProcessed(s, id) ==> IsProcessed(Next(s, a), id)
  {
    match a {
      case Apply(d, uuid, commits) =>
        if Effect(s, d, uuid, commits).Some? {
          BusinessFrame(s.db, s.deliveries[d].event, s.clock, uuid);
        }
      case _ =>
    }
  }

  /** In every interleaving the business effect of an event id commits at most once,
      and the row reads processed exactly when it did. */
  lemma {:induction false} AtMostOneCommit(s: State, steps: seq<Step>, id: string)
    requires InboxInv(s) && IsRun(s, steps)
    ensures Commits(s, steps, id) <= 1
    ensures IsProcessed(Run(s, steps), id) <==> IsProcessed(s, id) || Commits(s, steps, id) == 1
    ensures IsProcessed(s, id) ==> Commits(s, steps, id) == 0
    decreases steps
  {
    if steps != [] {
      StepKeepsInbox(s, steps[0]);
      CommitMarksProcessed(s, steps[0], id);
      AtMostOneCommit(Next(s, steps[0]), steps[1..], id);
    }
  }

  predicate IsDeliveryStep(a: Step) {
    a.Deliver? || a.Apply? || a.MarkFailed? || a.CrashDelivery?
  }

  lemma FailedStepHasNoEffect(s: State, a: Step)
    requires Enabled(s, a) && IsDeliveryStep(a) && !(a.Apply? && Effect(s, a.d, a.uuid, a.commits).Some?)
    ensures Next(s, a).db == s.db.(events := Next(s, a).db.events) && Next(s, a).applied == s.applied
  {
  }

  lemma {:induction false} AppliedGrows(s: State, steps: seq<Step>)
    requires IsRun(s, steps)
    ensures s.applied <= Run(s, steps).applied
    decreases steps
  {
    if steps != [] {
      AppliedGrows(Next(s, steps[0]), steps[1..]);
    }
  }

  /** Any number of interleaved deliveries, failing, crashing and repeated, of which none commits, leaves every business
      table as it was. */
  lemma {:induction false} FailedDeliveriesLeaveNoTrace(s: State, steps: seq<Step>)
    requires IsRun(s, steps) && (forall a | a in steps :: IsDeliveryStep(a)) && Run(s, steps).applied == s.applied
    ensures Run(s, steps).db == s.db.(events := Run(s, steps).db.events)
    decreases steps
  {
    if steps != [] {
      var a, s1 := steps[0], Next(s, steps[0]);
      assert forall b | b in steps[1..] :: b in steps;
      AppliedGrows(s1, steps[1..]);
      if !(a.Apply? && Effect(s, a.d, a.uuid, a.commits).Some?) {
        FailedStepHasNoEffect(s, a);
        FailedDeliveriesLeaveNoTrace(s1, steps[1..]);
      }
    }
  }

  /** The row exists but nobody will work on it: its delivery failed, or crashed before its second commit. */
  predicate Abandoned(s: State, id: string) {
    && id in s.db.events && !s.db.events[id].status.Processed?
    && forall d | d in s.deliveries && InFlight(s.deliveries[d]) :: s.deliveries[d].event.id != id
  }

  lemma AbandonedStays(s: State, a: Step, id: string)
    requires InboxInv(s) && Enabled(s, a) && Abandoned(s, id)
    ensures Abandoned(Next(s, a), id) && Next(s, a).db.events[id] == s.db.events[id]
    ensures !CommitsEvent(s, a, id)
  {
    match a {
      case Apply(d, uuid, commits) =>
        if Effect(s, d, uuid, commits).Some? {
          BusinessFrame(s.db, s.deliveries[d].event, s.clock, uuid);
        }
      case _ =>
    }
  }

  /** Redelivery does not repair: once abandoned, an event id keeps its row and never takes effect,
      however often the provider sends it again. */
  lemma {:induction false} AbandonedForever(s: State, steps: seq<Step>, id: string)
    requires InboxInv(s) && IsRun(s, steps) && Abandoned(s, id)
    ensures Commits(s, steps, id) == 0
    ensures Abandoned(Run(s, steps), id) && Run(s, steps).db.events[id] == s.db.events[id]
    decreases steps
  {
    if steps != [] {
      AbandonedStays(s, steps[0], id);
      StepKeepsInbox(s, steps[0]);
      AbandonedForever(Next(s, steps[0]), steps[1..], id);
    }
  }

  /** How an event id gets there: its delivery crashes after its first commit, or its handler fails and is marked. */
  lemma CrashAbandons(s: State, d: nat, e: Event)
    requires InboxInv(s) && Enabled(s, Deliver(d, e)) && e.id !in s.db.events
    ensures IsRun(s, [Deliver(d, e), CrashDelivery(d)])
    ensures Abandoned(Run(s, [Deliver(d, e), CrashDelivery(d)]), e.id)
  {
    var s1 := Next(s, Deliver(d, e));
    StepKeepsInbox(s, Deliver(d, e));
    RunOne(s1, CrashDelivery(d));
    RunFirst(s, Deliver(d, e), [CrashDelivery(d)]);
    OnlyInFlight(s1, d);
  }

  lemma FailureAbandons(s: State, d: nat, e: Event, uuid: nat, commits: bool)
    requires InboxInv(s) && Enabled(s, Deliver(d, e)) && e.id !in s.db.events
    requires Effect(Next(s, Deliver(d, e)), d, uuid, commits).None?
    ensures IsRun(s, [Deliver(d, e), Apply(d, uuid, commits), MarkFailed(d)])
    ensures Abandoned(Run(s, [Deliver(d, e), Apply(d, uuid, commits), MarkFailed(d)]), e.id)
  {
    var s1 := Next(s, Deliver(d, e));
    var s2 := Next(s1, Apply(d, uuid, commits));
    StepKeepsInbox(s, Deliver(d, e));
    RunOne(s2, MarkFailed(d));
    RunFirst(s1, Apply(d, uuid, commits), [MarkFailed(d)]);
    RunFirst(s, Deliver(d, e), [Apply(d, uuid, commits), MarkFailed(d)]);
    OnlyInFlight(s1, d);
  }

  lemma OnlyInFlight(s: State, d: nat)
    requires InboxInv(s) && d in s.deliveries && InFlight(s.deliveries[d])
    ensures forall f | f in s.deliveries && f != d && InFlight(s.deliveries[f]) ::
              s.deliveries[f].event.id != s.deliveries[d].event.id
  {
  }

  // ----- Exactly when an event takes effect -----

  /** The id has its row, unprocessed, and no delivery of it can still commit. */
  predicate Stuck(s: State, id: string) {
    && id in s.db.events && !s.db.events[id].status.Processed?
    && forall d | d in s.deliveries && s.deliveries[d].Open? :: s.deliveries[d].event.id != id
  }

  lemma StuckStays(s: State, a: Step, id: string)
    requires Enabled(s, a) && Stuck(s, id)
    ensures Stuck(Next(s, a), id)
  {
    if a.Apply? && Effect(s, a.d, a.uuid, a.commits).Some? {
      BusinessFrame(s.db, s.deliveries[a.d].event, s.clock, a.uuid);
    }
  }

  lemma {:induction false} StuckForever(s: State, steps: seq<Step>, id: string)
    requires IsRun(s, steps) && Stuck(s, id)
    ensures Stuck(Run(s, steps), id)
    decreases steps
  {
    if steps != [] {
      StuckStays(s, steps[0], id);
      StuckForever(Next(s, steps[0]), steps[1..], id);
    }
  }

  /** Delivery d commits its business transaction at some point of the run. */
  ghost predicate DeliveryCommits(s: State, steps: seq<Step>, d: nat)
    requires IsRun(s, steps)
    decreases steps
  {
    steps != [] &&
    ((steps[0].Apply? && steps[0].d == d && Effect(s, d, steps[0].uuid, steps[0].commits).Some?)
     || DeliveryCommits(Next(s, steps[0]), steps[1..], d))
  }

  /** The first delivery of this event id in the run commits. */
  ghost predicate FirstDeliveryCommits(s: State, steps: seq<Step>, id: string)
    requires IsRun(s, steps)
    decreases steps
  {
    steps != [] &&
    if steps[0].Deliver? && steps[0].event.id == id then DeliveryCommits(Next(s, steps[0]), steps[1..], steps[0].d)
    else FirstDeliveryCommits(Next(s, steps[0]), steps[1..], id)
  }

  /** A delivery that is no longer open never commits. */
  lemma {:induction false} SpentDeliveryNeverCommits(s: State, steps: seq<Step>, d: nat)
    requires IsRun(s, steps) && d in s.deliveries && !s.deliveries[d].Open?
    ensures !DeliveryCommits(s, steps, d)
    decreases steps
  {
    if steps != [] {
      SpentDeliveryNeverCommits(Next(s, steps[0]), steps[1..], d);
    }
  }

  lemma {:induction false} ProcessedStays(s: State, steps: seq<Step>, id: string)
    requires InboxInv(s) && IsRun(s, steps) && IsProcessed(s, id)
    ensures IsProcessed(Run(s, steps), id)
    decreases steps
  {
    if steps != [] {
      CommitMarksProcessed(s, steps[0], id);
      StepKeepsInbox(s, steps[0]);
      ProcessedStays(Next(s, steps[0]), steps[1..], id);
    }
  }

  /** A step that is not its own leaves an open delivery open. */
  lemma OpenStays(s: State, a: Step, d: nat)
    requires Enabled(s, a) && d in s.deliveries && s.deliveries[d].Open?
    requires !((a.Apply? || a.CrashDelivery?) && a.d == d)
    ensures d in Next(s, a).deliveries && Next(s, a).deliveries[d] == s.deliveries[d]
  {
  }

  lemma {:induction false} OpenDeliveryDecides(s: State, steps: seq<Step>, d: nat)
    requires InboxInv(s) && IsRun(s, steps) && d in s.deliveries && s.deliveries[d].Open?
    ensures IsProcessed(Run(s, steps), s.deliveries[d].event.id) <==> DeliveryCommits(s, steps, d)
    decreases steps
  {
    if steps != [] {
      var a, s1 := steps[0], Next(s, steps[0]);
      var id := s.deliveries[d].event.id;
      StepKeepsInbox(s, a);
      if (a.Apply? || a.CrashDelivery?) && a.d == d {
        if a.Apply? && Effect(s, d, a.uuid, a.commits).Some? {
          CommitMarksProcessed(s, a, id);
          ProcessedStays(s1, steps[1..], id);
        } else {
          OnlyInFlight(s, d);
          assert Stuck(s1, id);
          StuckForever(s1, steps[1..], id);
          SpentDeliveryNeverCommits(s1, steps[1..], d);
        }
      } else {
        OpenStays(s, a, d);
        OpenDeliveryDecides(s1, steps[1..], d);
      }
    }
  }

  lemma OnlyDeliveriesAddRows(s: State, a: Step, id: string)
    requires Enabled(s, a) && id !in s.db.events && !(a.Deliver? && a.event.id == id)
    ensures id !in Next(s, a).db.events
  {
    if a.Apply? && Effect(s, a.d, a.uuid, a.commits).Some? {
      BusinessFrame(s.db, s.deliveries[a.d].event, s.clock, a.uuid);
    }
  }

  /** Over any run, an event id without a row ends processed if and only if the first delivery of it commits; no later
      delivery makes up for one that failed or crashed. */
  lemma {:induction false} ProcessedIffFirstDeliveryCommits(s: State, steps: seq<Step>, id: string)
    requires InboxInv(s) && IsRun(s, steps) && id !in s.db.events
    ensures IsProcessed(Run(s, steps), id) <==> FirstDeliveryCommits(s, steps, id)
    decreases steps
  {
    if steps != [] {
      StepKeepsInbox(s, steps[0]);
      if steps[0].Deliver? && steps[0].event.id == id {
        OpenDeliveryDecides(Next(s, steps[0]), steps[1..], steps[0].d);
      } else {
        OnlyDeliveriesAddRows(s, steps[0], id);
        ProcessedIffFirstDeliveryCommits(Next(s, steps[0]), steps[1..], id);
      }
    }
  }
}
