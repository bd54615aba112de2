/** How often a payout is debited. The ledger key is the reference an event carries, and the lookup knows a payment
    under three columns, so a payment is debited once for each reference it was settled under. */
module KoraPayouts {
  import opened Wrappers
  import opened KoraTables
  import opened KoraStatus
  import opened KoraWebhooks
  import opened KoraSystem
  import opened KoraLedger
  import opened KoraLedgerRuns
  import opened KoraEventOrder

  /** The payout postings under one of the payment's references. */
  function PayoutDebits(ps: set<Posting>, txn: Transaction): set<Posting> {
    set p | p in ps && p.reference.KoraPayout? && Refers(txn, p.reference.reference)
  }

  function ReferencesOf(ps: set<Posting>): set<Reference> {
    set p | p in ps :: p.reference
  }

  function OwnReferences(txn: Transaction): set<string> {
    {txn.idempotencyKey, txn.pspTransactionId, txn.pspPaymentReference} - {""}
  }

  /** The payment is known under one reference only. */
  predicate ReferencesCoincide(txn: Transaction) {
    forall x, y | x in OwnReferences(txn) && y in OwnReferences(txn) :: x == y
  }

  // ----- Counting postings by their references -----

  predicate OnePerReference(ps: set<Posting>) {
    forall p, q | p in ps && q in ps && p.reference == q.reference :: p == q
  }

  lemma {:induction false} PostingsAreReferences(ps: set<Posting>)
    requires OnePerReference(ps)
    ensures |ps| == |ReferencesOf(ps)|
    decreases ps
  {
    if ps != {} {
      var p :| p in ps;
      PostingsAreReferences(ps - {p});
      assert ReferencesOf(ps) == ReferencesOf(ps - {p}) + {p.reference};
    }
  }

  lemma AtMostOneIff<T>(xs: set<T>)
    ensures |xs| <= 1 <==> forall x, y | x in xs && y in xs :: x == y
  {
    if xs != {} {
      var x :| x in xs;
      if xs - {x} != {} {
        var y :| y in xs - {x};
        assert {x, y} <= xs;
        assert |xs - {x, y}| == |xs| - |{x, y}|;
      } else {
        assert xs == {x};
      }
    }
  }

  lemma LedgerIsOnePerReference(ledger: seq<LedgerEntry>)
    requires KoraReferencesUnique(ledger)
    ensures OnePerReference(KoraPostings(ledger))
  {
    forall p, q | p in KoraPostings(ledger) && q in KoraPostings(ledger) && p.reference == q.reference ensures p == q {
      var i :| 0 <= i < |ledger| && IsKora(ledger[i].reference) && PostingOf(ledger[i]) == p;
      var j :| 0 <= j < |ledger| && IsKora(ledger[j].reference) && PostingOf(ledger[j]) == q;
      assert !(i < j) && !(j < i);
    }
  }

  /** In a good ledger a payment has as many debits as posted references, so at most one if and only if they agree. */
  lemma DebitsAreReferences(t: Tables, txn: Transaction)
    requires LedgerInv(t)
    ensures var debits := PayoutDebits(KoraPostings(t.ledger), txn);
            && |debits| == |ReferencesOf(debits)|
            && (|debits| <= 1 <==> forall x, y | x in ReferencesOf(debits) && y in ReferencesOf(debits) :: x == y)
  {
    var debits := PayoutDebits(KoraPostings(t.ledger), txn);
    LedgerIsOnePerReference(t.ledger);
    PostingsAreReferences(debits);
    AtMostOneIff(ReferencesOf(debits));
  }

  // ----- Payments known under one reference -----

  /** A payment whose references coincide has at most one payout debit, in every state with a good ledger. */
  lemma CoincidingReferencesDebitOnce(t: Tables, txn: Transaction)
    requires LedgerInv(t) && ReferencesCoincide(txn)
    ensures |PayoutDebits(KoraPostings(t.ledger), txn)| <= 1
  {
    var debits := PayoutDebits(KoraPostings(t.ledger), txn);
    DebitsAreReferences(t, txn);
    forall p | p in debits ensures p.reference.reference in OwnReferences(txn) {
      assert Backed(t, p);
    }
  }

  /** Over any run of the whole system: at most one debit for a payment whose references coincide. */
  lemma CoincidingPayoutDebitedOnce(s: State, steps: seq<Step>, id: nat)
    requires LedgerInv(s.db) && IsRun(s, steps) && id in s.db.transactions && ReferencesCoincide(s.db.transactions[id])
    ensures |PayoutDebits(KoraPostings(Run(s, steps).db.ledger), s.db.transactions[id])| <= 1
  {
    LedgerIsSettlements(s, steps);
    CoincidingReferencesDebitOnce(Run(s, steps).db, s.db.transactions[id]);
  }

  /** Over any run a payment is debited once for each reference it was settled under, before the run or in it; at most
      once if and only if these references agree. */
  lemma DebitsOverRuns(s: State, steps: seq<Step>, id: nat)
    requires LedgerInv(s.db) && IsRun(s, steps) && id in s.db.transactions
    ensures var txn := s.db.transactions[id];
            var debits := PayoutDebits(KoraPostings(Run(s, steps).db.ledger), txn);
            var references := ReferencesOf(PayoutDebits(KoraPostings(s.db.ledger), txn)) + ReferencesOf(PayoutDebits(Settled(s, steps), txn));
            && |debits| == |references|
            && (|debits| <= 1 <==> forall x, y | x in references && y in references :: x == y)
  {
    var txn := s.db.transactions[id];
    LedgerIsSettlements(s, steps);
    DebitsAreReferences(Run(s, steps).db, txn);
    ReferencesSplit(KoraPostings(s.db.ledger), Settled(s, steps), txn);
  }

  lemma ReferencesSplit(ps: set<Posting>, qs: set<Posting>, txn: Transaction)
    ensures ReferencesOf(PayoutDebits(ps + qs, txn)) == ReferencesOf(PayoutDebits(ps, txn)) + ReferencesOf(PayoutDebits(qs, txn))
  {
    assert PayoutDebits(ps + qs, txn) == PayoutDebits(ps, txn) + PayoutDebits(qs, txn);
  }

  // ----- Sequences of events over fixed tables -----

  /** The event settles payment id as a payout. */
  ghost predicate SettlesPayout(t: Tables, e: Event, id: nat) {
    && !IsRefundEvent(e.kind) && IsPayoutEvent(e.kind) && Settlement(t, e).Some?
    && FindTransaction(t.transactions, EventReference(e.data)) == Found(id)
  }

  /** The references under which a sequence of events settles payment id. */
  ghost function SettledUnder(t: Tables, hs: seq<Handled>, id: nat): set<Reference> {
    set h | h in hs && SettlesPayout(t, h.event, id) :: KoraPayout(EventReference(h.event.data))
  }

  lemma SettlementConcerns(t: Tables, e: Event, id: nat)
    requires id in t.transactions && Settlement(t, e).Some?
    ensures var p := Settlement(t, e).value;
            p.reference.KoraPayout? && Refers(t.transactions[id], p.reference.reference) <==> SettlesPayout(t, e, id)
    ensures SettlesPayout(t, e, id) ==> Settlement(t, e).value.reference == KoraPayout(EventReference(e.data))
  {
  }

  lemma SettlementReferences(t: Tables, hs: seq<Handled>, id: nat)
    requires id in t.transactions
    ensures ReferencesOf(PayoutDebits(SettlementsOf(t, EventsOf(hs)), t.transactions[id])) == SettledUnder(t, hs, id)
  {
    var txn := t.transactions[id];
    var settled := PayoutDebits(SettlementsOf(t, EventsOf(hs)), txn);
    forall x | x in ReferencesOf(settled) ensures x in SettledUnder(t, hs, id) {
      var p :| p in settled && p.reference == x;
      var h :| h in hs && Settlement(t, h.event).Some? && Settlement(t, h.event).value == p;
      SettlementConcerns(t, h.event, id);
    }
    forall x | x in SettledUnder(t, hs, id) ensures x in ReferencesOf(settled) {
      var h :| h in hs && SettlesPayout(t, h.event, id) && KoraPayout(EventReference(h.event.data)) == x;
      SettlementConcerns(t, h.event, id);
      assert h.event in EventsOf(hs);
      assert Settlement(t, h.event).value in settled;
    }
  }

  /** After any sequence of events, in any order and with any repeats, the references posted for a payment are those
      posted before and those of the events that settle it, and it has one debit for each; at most one if and only if
      they all agree. */
  lemma OneDebitPerReference(t: Tables, hs: seq<Handled>, id: nat)
    requires LedgerInv(t) && id in t.transactions
    ensures var txn := t.transactions[id];
            var debits := PayoutDebits(KoraPostings(HandleAll(t, hs).ledger), txn);
            var references := ReferencesOf(PayoutDebits(KoraPostings(t.ledger), txn)) + SettledUnder(t, hs, id);
            && ReferencesOf(debits) == references && |debits| == |references|
            && (|debits| <= 1 <==> forall x, y | x in references && y in references :: x == y)
  {
    LedgerOfSequence(t, hs);
    DebitsAreReferences(HandleAll(t, hs), t.transactions[id]);
    ReferencesSplit(KoraPostings(t.ledger), SettlementsOf(t, EventsOf(hs)), t.transactions[id]);
    SettlementReferences(t, hs, id);
  }

  lemma SampleSettles(reference: string)
    requires reference == "afm-payout-1" || reference == "KPY-1"
    ensures SettlesPayout(SampleTables(Processing), PayoutEvent(reference, "success"), 1)
    ensures EventReference(PayoutEvent(reference, "success").data) == reference
  {
    Words();
    SampleLookup(Processing, reference);
  }

  lemma TwoReferences(t: Tables, h: Handled, g: Handled, id: nat)
    requires SettlesPayout(t, h.event, id) && SettlesPayout(t, g.event, id)
    ensures SettledUnder(t, [h, g], id) == {KoraPayout(EventReference(h.event.data)), KoraPayout(EventReference(g.event.data))}
  {
    assert h in [h, g] && g in [h, g];
    assert forall x | x in [h, g] :: x == h || x == g;
  }

  /** Both references of the sample payout are known to the lookup, so it can be debited twice. */
  lemma PayoutCanBeDebitedTwice(now: Time, uuid: nat)
    ensures var hs := [Handled(PayoutEvent("afm-payout-1", "success"), now, uuid), Handled(PayoutEvent("KPY-1", "success"), now, uuid)];
            |PayoutDebits(KoraPostings(HandleAll(SampleTables(Processing), hs).ledger), SamplePayment(Processing))| == 2
  {
    var t := SampleTables(Processing);
    var h, g := Handled(PayoutEvent("afm-payout-1", "success"), now, uuid), Handled(PayoutEvent("KPY-1", "success"), now, uuid);
    SampleSettles("afm-payout-1");
    SampleSettles("KPY-1");
    TwoReferences(t, h, g, 1);
    assert KoraPostings(t.ledger) == {};
    assert ReferencesOf(PayoutDebits(KoraPostings(t.ledger), SamplePayment(Processing))) == {};
    assert |"afm-payout-1"| != |"KPY-1"|;
    OneDebitPerReference(t, [h, g], 1);
  }
}
