/** The invariants together, and what they give an account holder in every state reachable from an empty database. */
module KoraGuarantees {
  import opened Wrappers
  import opened KoraTables
  import opened KoraWebhooks
  import opened KoraSystem
  import opened KoraLedger
  import opened KoraLedgerRuns
  import opened KoraInbox
  import opened KoraRefundRuns
  import opened ReconciliationRuns
  import Reconciliation

  ghost predicate SystemInv(s: State) {
    && LedgerInv(s.db) && InboxInv(s) && RefundInv(s)
    && CompletedIffPosted(s.db) && ParentsExist(s.db)
    && LeasesClaimed(s)
  }

  function EmptySystem(now: Time): State {
    State(Tables(map[], [], map[], [], map[]), map[], map[], map[], now, [], [])
  }

  lemma EmptySystemIsGood(now: Time)
    ensures SystemInv(EmptySystem(now))
  {
    assert KoraPostings(EmptySystem(now).db.ledger) == {};
  }

  lemma StepKeepsSystem(s: State, a: Step)
    requires SystemInv(s) && Enabled(s, a)
    ensures SystemInv(Next(s, a))
  {
    StepPosts(s, a);
    StepKeepsInbox(s, a);
    StepKeepsRefunds(s, a);
    StepKeepsCompletion(s, a);
    StepKeepsLeasesClaimed(s, a);
  }

  /** Every step of every handler keeps every invariant, so they hold after any run. */
  lemma {:induction false} RunKeepsSystem(s: State, steps: seq<Step>)
    requires SystemInv(s) && IsRun(s, steps)
    ensures SystemInv(Run(s, steps))
    decreases steps
  {
    if steps != [] {
      StepKeepsSystem(s, steps[0]);
      RunKeepsSystem(Next(s, steps[0]), steps[1..]);
    }
  }

  // ----- The balance read from the tables -----

  /** The debits of refunds that ever succeeded: completed_at is never cleared. */
  function CompletedRefunds(t: Tables): set<Posting> {
    set i | 0 <= i < |t.refunds| && t.refunds[i].completedAt.Some? && PostsToAccount(t, t.refunds[i]) ::
      RefundPosting(t, t.refunds[i])
  }

  function RefundPosting(t: Tables, r: Refund): Posting
    requires PostsToAccount(t, r)
  {
    Posting(KoraRefund(r.refundReference), t.transactions[r.transactionId].account.value, r.amount, r.currency)
  }

  function PayoutPostings(ps: set<Posting>): set<Posting> {
    set p | p in ps && p.reference.KoraPayout?
  }

  lemma CompletedRefundIsPosted(t: Tables, i: nat)
    requires LedgerInv(t) && CompletedIffPosted(t)
    requires i < |t.refunds| && t.refunds[i].completedAt.Some? && PostsToAccount(t, t.refunds[i])
    ensures RefundPosting(t, t.refunds[i]) in KoraPostings(t.ledger)
  {
    var reference := t.refunds[i].refundReference;
    var j :| 0 <= j < |t.ledger| && t.ledger[j].reference == KoraRefund(reference);
    var p := PostingOf(t.ledger[j]);
    assert p in KoraPostings(t.ledger) && Backed(t, p);
    var k :| RefundBacked(t, p, k, reference);
    assert k == i;
  }

  lemma PostedRefundIsCompleted(t: Tables, p: Posting)
    requires LedgerInv(t) && CompletedIffPosted(t) && p in KoraPostings(t.ledger) && p.reference.KoraRefund?
    ensures p in CompletedRefunds(t)
  {
    var reference := p.reference.refundReference;
    var e :| e in t.ledger && IsKora(e.reference) && PostingOf(e) == p;
    assert Backed(t, p);
    var k :| RefundBacked(t, p, k, reference);
    assert PostsToAccount(t, t.refunds[k]) && HasEntry(t.ledger, KoraRefund(reference));
    assert RefundPosting(t, t.refunds[k]) == p;
  }

  /** The Kora postings are the settled payouts and the refunds that ever succeeded. */
  lemma PostingsAreRefundsAndPayouts(t: Tables)
    requires LedgerInv(t) && CompletedIffPosted(t)
    ensures KoraPostings(t.ledger) == PayoutPostings(KoraPostings(t.ledger)) + CompletedRefunds(t)
    ensures PayoutPostings(KoraPostings(t.ledger)) !! CompletedRefunds(t)
  {
    forall p | p in KoraPostings(t.ledger) && !p.reference.KoraPayout? ensures p in CompletedRefunds(t) {
      PostedRefundIsCompleted(t, p);
    }
    forall p | p in CompletedRefunds(t) ensures p in KoraPostings(t.ledger) {
      var i :| 0 <= i < |t.refunds| && t.refunds[i].completedAt.Some? && PostsToAccount(t, t.refunds[i])
               && RefundPosting(t, t.refunds[i]) == p;
      CompletedRefundIsPosted(t, i);
    }
  }

  lemma BalanceOfTables(t: Tables, settled: set<Posting>, account: nat)
    requires LedgerInv(t) && CompletedIffPosted(t) && KoraPostings(t.ledger) == settled
    ensures Total(settled, account) == Total(PayoutPostings(settled), account) + Total(CompletedRefunds(t), account)
  {
    PostingsAreRefundsAndPayouts(t);
    TotalSplit(PayoutPostings(settled), CompletedRefunds(t), account);
  }

  lemma BalanceFromEmptyLedger(s0: State, steps: seq<Step>, account: nat)
    requires LedgerInv(s0.db) && s0.db.ledger == [] && IsRun(s0, steps)
    ensures KoraPostings(Run(s0, steps).db.ledger) == Settled(s0, steps)
    ensures Balance(Run(s0, steps).db.ledger, account) == - Total(Settled(s0, steps), account)
  {
    LedgerIsSettlements(s0, steps);
    CashBalanceIsConserved(s0, steps, account);
    assert KoraPostings(s0.db.ledger) == {};
    assert Settled(s0, steps) - {} == Settled(s0, steps);
  }

  lemma ReachableTables(s0: State, steps: seq<Step>)
    requires SystemInv(s0) && IsRun(s0, steps)
    ensures LedgerInv(s0.db)
    ensures LedgerInv(Run(s0, steps).db) && CompletedIffPosted(Run(s0, steps).db)
  {
    RunKeepsSystem(s0, steps);
  }

  /** From an empty ledger, whatever is interleaved, repeated or crashes: an account's cash balance is minus the
      distinct payout settlements that committed and minus the refunds that ever succeeded. */
  lemma BalanceIsPayoutsAndRefunds(s0: State, steps: seq<Step>, account: nat)
    requires SystemInv(s0) && s0.db.ledger == [] && IsRun(s0, steps)
    ensures Balance(Run(s0, steps).db.ledger, account)
         == - Total(PayoutPostings(Settled(s0, steps)), account) - Total(CompletedRefunds(Run(s0, steps).db), account)
  {
    ReachableTables(s0, steps);
    BalanceFromEmptyLedger(s0, steps, account);
    BalanceOfTables(Run(s0, steps).db, Settled(s0, steps), account);
  }

  lemma GoodRun(s0: State, steps: seq<Step>, account: nat)
    requires SystemInv(s0) && s0.db.ledger == [] && IsRun(s0, steps)
    ensures SystemInv(Run(s0, steps))
    ensures Balance(Run(s0, steps).db.ledger, account)
         == - Total(PayoutPostings(Settled(s0, steps)), account) - Total(CompletedRefunds(Run(s0, steps).db), account)
  {
    RunKeepsSystem(s0, steps);
    BalanceIsPayoutsAndRefunds(s0, steps, account);
  }

  /** In every state reachable from an empty database all invariants hold, and the cash balance is read off the settled
      payouts and the completed refunds. */
  lemma EveryReachableState(s0: State, now: Time, steps: seq<Step>, account: nat)
    requires s0 == EmptySystem(now) && IsRun(s0, steps)
    ensures SystemInv(Run(s0, steps))
    ensures Balance(Run(s0, steps).db.ledger, account)
         == - Total(PayoutPostings(Settled(s0, steps)), account) - Total(CompletedRefunds(Run(s0, steps).db), account)
  {
    EmptySystemIsGood(now);
    GoodRun(s0, steps, account);
  }
}
