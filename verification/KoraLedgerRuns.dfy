/** The ledger and the cash balance over whole runs of the system. */
module KoraLedgerRuns {
  import opened Wrappers
  import opened KoraTables
  import opened KoraWebhooks
  import opened KoraSystem
  import opened KoraLedger

  // ----- Postings over runs -----

  /** The settlement a step commits, if any. */
  ghost function Settles(s: State, a: Step): set<Posting>
    requires Enabled(s, a)
  {
    if a.Apply? && Effect(s, a.d, a.uuid, a.commits).Some? then AsSet(Settlement(s.db, s.deliveries[a.d].event)) else {}
  }

  /** Everything settled during a run. */
  ghost function Settled(s: State, steps: seq<Step>): set<Posting>
    requires IsRun(s, steps)
    decreases steps
  {
    if steps == [] then {} else Settles(s, steps[0]) + Settled(Next(s, steps[0]), steps[1..])
  }

  lemma ApplyPosts(s: State, d: nat, uuid: nat, commits: bool)
    requires LedgerInv(s.db) && Enabled(s, Apply(d, uuid, commits))
    ensures var s' := Next(s, Apply(d, uuid, commits));
            LedgerInv(s'.db) && KoraPostings(s'.db.ledger) == KoraPostings(s.db.ledger) + Settles(s, Apply(d, uuid, commits))
  {
    var e := s.deliveries[d].event;
    if Effect(s, d, uuid, commits).Some? {
      EventPosts(s.db, e, s.clock, uuid);
      var t := Effect(s, d, uuid, commits).value;
      InvStays(t, SetEventStatus(t, e.id, Processed));
    }
  }

  lemma SimulatePosts(s: State, id: nat, txn: Transaction, uuid: nat)
    requires LedgerInv(s.db) && Enabled(s, Simulate(id, txn, uuid))
    ensures var s' := Next(s, Simulate(id, txn, uuid));
            LedgerInv(s'.db) && KoraPostings(s'.db.ledger) == KoraPostings(s.db.ledger)
  {
    var t := InsertRow(s.db, id, txn);
    InvStays(s.db, t);
    var e := IntentEntry(id, txn, uuid, s.clock);
    AppendPostings(t.ledger, e);
    var t' := t.(ledger := t.ledger + [e]);
    forall p | p in KoraPostings(t'.ledger) ensures Backed(t', p) {
      BackedStays(t, t', p);
    }
  }

  /** Every step keeps the ledger invariant and posts exactly what it settles. */
  lemma StepPosts(s: State, a: Step)
    requires LedgerInv(s.db) && Enabled(s, a)
    ensures LedgerInv(Next(s, a).db)
    ensures KoraPostings(Next(s, a).db.ledger) == KoraPostings(s.db.ledger) + Settles(s, a)
  {
    match a {
      case Apply(d, uuid, commits) => ApplyPosts(s, d, uuid, commits);
      case Simulate(id, txn, uuid) => SimulatePosts(s, id, txn, uuid);
      case InsertRefund(c) =>
        StepFrame(s, a);
        InvStays(s.db, Next(s, a).db);
      case _ =>
        StepFrame(s, a);
        UniqueStays(s.db.refunds, Next(s, a).db.refunds);
        InvStays(s.db, Next(s, a).db);
    }
  }

  /** After any run each Kora reference is posted at most once, and the postings are exactly
      the initial ones together with the settlements that committed: order and repetition leave no trace. */
  lemma {:induction false} LedgerIsSettlements(s: State, steps: seq<Step>)
    requires LedgerInv(s.db) && IsRun(s, steps)
    ensures LedgerInv(Run(s, steps).db)
    ensures KoraPostings(Run(s, steps).db.ledger) == KoraPostings(s.db.ledger) + Settled(s, steps)
    decreases steps
  {
    if steps != [] {
      StepPosts(s, steps[0]);
      LedgerIsSettlements(Next(s, steps[0]), steps[1..]);
    }
  }

  // ----- The cash balance -----

  function Signed(e: LedgerEntry): int {
    if e.direction.Credit? then e.amount else -e.amount
  }

  /** The sum of an account's signed entries. */
  function Balance(ledger: seq<LedgerEntry>, account: nat): int {
    if ledger == [] then 0
    else
      var e := ledger[|ledger| - 1];
      Balance(ledger[..|ledger| - 1], account) + (if e.account == account then Signed(e) else 0)
  }

  lemma BalanceAppend(ledger: seq<LedgerEntry>, e: LedgerEntry, account: nat)
    ensures Balance(ledger + [e], account) == Balance(ledger, account) + (if e.account == account then Signed(e) else 0)
  {
    assert (ledger + [e])[..|ledger|] == ledger;
  }

  /** The amounts an account was credited, or debited. */
  function Moved(ledger: seq<LedgerEntry>, account: nat, credits: bool): int {
    if ledger == [] then 0
    else
      var e := ledger[|ledger| - 1];
      Moved(ledger[..|ledger| - 1], account, credits)
      + (if e.account == account && (e.direction == Credit <==> credits) then e.amount else 0)
  }

  /** The balance is the credits minus the debits of the account. */
  lemma {:induction false} BalanceIsCreditsMinusDebits(ledger: seq<LedgerEntry>, account: nat)
    ensures Balance(ledger, account) == Moved(ledger, account, true) - Moved(ledger, account, false)
  {
    if ledger != [] {
      BalanceIsCreditsMinusDebits(ledger[..|ledger| - 1], account);
    }
  }

  /** The rows the balance query returns. */
  function RowsOf(ledger: seq<LedgerEntry>, account: nat): seq<LedgerEntry> {
    if ledger == [] then []
    else
      var e := ledger[|ledger| - 1];
      RowsOf(ledger[..|ledger| - 1], account) + (if e.account == account then [e] else [])
  }

  lemma {:induction false} RowsBalance(ledger: seq<LedgerEntry>, account: nat)
    ensures Balance(RowsOf(ledger, account), account) == Balance(ledger, account)
  {
    if ledger != [] {
      var e := ledger[|ledger| - 1];
      RowsBalance(ledger[..|ledger| - 1], account);
      if e.account == account {
        BalanceAppend(RowsOf(ledger[..|ledger| - 1], account), e, account);
      } else {
        assert RowsOf(ledger, account) == RowsOf(ledger[..|ledger| - 1], account);
      }
    }
  }

  lemma {:induction false} RowsAreOwn(ledger: seq<LedgerEntry>, account: nat)
    ensures forall i | 0 <= i < |RowsOf(ledger, account)| :: RowsOf(ledger, account)[i].account == account
  {
    if ledger != [] {
      RowsAreOwn(ledger[..|ledger| - 1], account);
    }
  }

  /** get_virtual_cash_balance. */
  method GetVirtualCashBalance(db: Database, account: nat) returns (balance: int)
    ensures balance == Balance(db.ledger, account)
  {
    var rows := RowsOf(db.ledger, account);
    RowsAreOwn(db.ledger, account);
    RowsBalance(db.ledger, account);
    balance := 0;
    for i := 0 to |rows|
      invariant balance == Balance(rows[..i], account)
    {
      var signedAmount := rows[i].amount;
      balance := balance + (if rows[i].direction.Credit? then signedAmount else -signedAmount);
      assert rows[..i + 1] == rows[..i] + [rows[i]];
      BalanceAppend(rows[..i], rows[i], account);
    }
    assert rows[..|rows|] == rows;
  }

  /** The total a set of postings takes from an account. */
  ghost function Total(ps: set<Posting>, account: nat): int {
    if ps == {} then 0
    else
      var p :| p in ps;
      (if p.account == account then p.amount else 0) + Total(ps - {p}, account)
  }

  lemma {:induction false} TotalRemove(ps: set<Posting>, p: Posting, account: nat)
    requires p in ps
    ensures Total(ps, account) == (if p.account == account then p.amount else 0) + Total(ps - {p}, account)
    decreases ps
  {
    var q :| q in ps && Total(ps, account) == (if q.account == account then q.amount else 0) + Total(ps - {q}, account);
    if q != p {
      TotalRemove(ps - {q}, p, account);
      TotalRemove(ps - {p}, q, account);
      assert ps - {q} - {p} == ps - {p} - {q};
    }
  }

  lemma TotalAdd(ps: set<Posting>, p: Posting, account: nat)
    requires p !in ps
    ensures Total(ps + {p}, account) == Total(ps, account) + (if p.account == account then p.amount else 0)
  {
    TotalRemove(ps + {p}, p, account);
    assert ps + {p} - {p} == ps;
  }

  lemma {:induction false} TotalSplit(ps: set<Posting>, qs: set<Posting>, account: nat)
    requires ps !! qs
    ensures Total(ps + qs, account) == Total(ps, account) + Total(qs, account)
    decreases qs
  {
    if qs == {} {
      assert ps + qs == ps;
    } else {
      var q :| q in qs;
      TotalSplit(ps, qs - {q}, account);
      assert ps + qs == (ps + (qs - {q})) + {q};
      TotalAdd(ps + (qs - {q}), q, account);
      TotalRemove(qs, q, account);
    }
  }

  function NonKora(ledger: seq<LedgerEntry>): seq<LedgerEntry> {
    if ledger == [] then []
    else
      var e := ledger[|ledger| - 1];
      NonKora(ledger[..|ledger| - 1]) + (if IsKora(e.reference) then [] else [e])
  }

  /** A ledger of unique Kora debits is worth its other entries minus its postings. */
  lemma {:induction false} BalanceSplit(ledger: seq<LedgerEntry>, account: nat)
    requires KoraReferencesUnique(ledger)
    requires forall e | e in ledger && IsKora(e.reference) :: e.direction.Debit?
    ensures Balance(ledger, account) == Balance(NonKora(ledger), account) - Total(KoraPostings(ledger), account)
  {
    if ledger != [] {
      var init, e := ledger[..|ledger| - 1], ledger[|ledger| - 1];
      assert ledger == init + [e];
      BalanceSplit(init, account);
      AppendPostings(init, e);
      if IsKora(e.reference) {
        assert PostingOf(e) !in KoraPostings(init) by {
          assert forall x | x in init :: x.reference != e.reference;
        }
        TotalAdd(KoraPostings(init), PostingOf(e), account);
        assert NonKora(ledger) == NonKora(init);
      } else {
        BalanceAppend(NonKora(init), e, account);
        assert KoraPostings(ledger) == KoraPostings(init);
      }
    } else {
      assert KoraPostings(ledger) == {};
    }
  }

  /** What a step may append: a Kora entry, or a journal entry worth zero. */
  predicate AppendsAtMost(l: seq<LedgerEntry>, l': seq<LedgerEntry>) {
    && l <= l'
    && (l' == l || (|l'| == |l| + 1 && (IsKora(l'[|l|].reference) || Signed(l'[|l|]) == 0)))
  }

  lemma StepAppends(s: State, a: Step)
    requires Enabled(s, a)
    ensures AppendsAtMost(s.db.ledger, Next(s, a).db.ledger)
  {
    match a {
      case Apply(d, uuid, commits) =>
        if Effect(s, d, uuid, commits).Some? {
          BusinessFrame(s.db, s.deliveries[d].event, s.clock, uuid);
        }
      case _ =>
    }
  }

  lemma AppendKeepsOthers(l: seq<LedgerEntry>, l': seq<LedgerEntry>, account: nat)
    requires AppendsAtMost(l, l')
    ensures Balance(NonKora(l'), account) == Balance(NonKora(l), account)
  {
    if l' != l {
      var e := l'[|l|];
      assert l'[..|l'| - 1] == l;
      if IsKora(e.reference) {
        assert NonKora(l') == NonKora(l);
      } else {
        BalanceAppend(NonKora(l), e, account);
      }
    }
  }

  /** Conservation. After any run the cash balance is the initial one minus the amounts of the settlements that
      committed during the run and were not already posted, each counted once. */
  lemma CashBalanceIsConserved(s: State, steps: seq<Step>, account: nat)
    requires LedgerInv(s.db) && IsRun(s, steps)
    ensures Balance(Run(s, steps).db.ledger, account)
         == Balance(s.db.ledger, account) - Total(Settled(s, steps) - KoraPostings(s.db.ledger), account)
  {
    var s' := Run(s, steps);
    var before, settled := KoraPostings(s.db.ledger), Settled(s, steps) - KoraPostings(s.db.ledger);
    LedgerIsSettlements(s, steps);
    OthersKept(s, steps, account);
    BalanceSplit(s.db.ledger, account);
    BalanceSplit(s'.db.ledger, account);
    assert KoraPostings(s'.db.ledger) == before + settled;
    TotalSplit(before, settled, account);
  }

  /** Simulated payments and the other journal entries never move a balance. */
  lemma {:induction false} OthersKept(s: State, steps: seq<Step>, account: nat)
    requires IsRun(s, steps)
    ensures Balance(NonKora(Run(s, steps).db.ledger), account) == Balance(NonKora(s.db.ledger), account)
    decreases steps
  {
    if steps != [] {
      StepAppends(s, steps[0]);
      AppendKeepsOthers(s.db.ledger, Next(s, steps[0]).db.ledger, account);
      OthersKept(Next(s, steps[0]), steps[1..], account);
    }
  }
}
