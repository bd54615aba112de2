/** api_gateway/main.py:1309-1386, the sandbox payment: a pending row and a journal entry worth nothing. */
module KoraSimulation {
  import opened Wrappers
  import opened KoraTables
  import opened KoraRefunds
  import opened KoraSystem
  import opened KoraLedgerRuns

  /** Amounts in the units of stored amounts. `isPayout` is what the caller's metadata says of the operation. */
  datatype SimulationRequest = SimulationRequest(
    user: nat,
    amount: int,
    kaybicFee: int,
    payinFee: int,
    payoutFee: int,
    afmFee: int,
    toPayout: bool,
    isPayout: bool,
    sourceCurrency: string)

  function TotalFees(r: SimulationRequest): int {
    QuantizeCents(r.kaybicFee + r.payinFee + (if r.toPayout then r.payoutFee else 0) + r.afmFee)
  }

  /** The payout fee counts for payouts alone. */
  lemma FeesByDirection(r: SimulationRequest)
    ensures TotalFees(r.(toPayout := false)) == QuantizeCents(r.kaybicFee + r.payinFee + r.afmFee)
    ensures TotalFees(r.(toPayout := true)) == QuantizeCents(r.kaybicFee + r.payinFee + r.payoutFee + r.afmFee)
  {
  }

  /** The row of a simulated payment; its key is drawn at random. */
  function SandboxPayment(r: SimulationRequest, key: string, account: nat, currency: string): Transaction {
    Transaction(r.user, false, AFM_PAYMENTS, r.isPayout, key, "", "", Some(account), r.amount, currency, Pending, None, None)
  }

  datatype Answer = Refused(httpStatus: int) | Created(id: nat)

  /** simulate_payment. The source currency arrives in capitals. */
  method SimulatePayment(db: Database, r: SimulationRequest, production: bool, id: nat, key: string, account: nat, uuid: nat, now: Time)
    returns (answer: Answer)
    requires id !in db.transactions && r.amount >= 0
    modifies db
    ensures production ==> answer == Refused(404)
    ensures !production && QuantizeCents(r.amount - TotalFees(r)) < 0 ==> answer == Refused(422)
    ensures answer.Refused? ==> db.View() == old(db.View())
    ensures !production && QuantizeCents(r.amount - TotalFees(r)) >= 0 ==>
              var txn := Transaction(r.user, false, "afm_payments", r.isPayout, key, "", "", Some(account), r.amount,
                                     r.sourceCurrency, Pending, None, None);
              && answer == Created(id)
              && db.View() == old(db.View()).(
                   transactions := old(db.transactions)[id := txn],
                   ledger := old(db.ledger) + [LedgerEntry(uuid, account, Credit, 0, r.sourceCurrency, ToTransaction(id), now)])
    ensures forall a :: Balance(db.ledger, a) == Balance(old(db.ledger), a)
  {
    if production {
      return Refused(404);
    }
    var fees := r.kaybicFee + r.payinFee;
    if r.toPayout {
      fees := fees + r.payoutFee;
    }
    fees := QuantizeCents(fees + r.afmFee);
    if QuantizeCents(r.amount - fees) < 0 {
      return Refused(422);
    }
    db.transactions := db.transactions[id := SandboxPayment(r, key, account, r.sourceCurrency)];
    var journal := LedgerEntry(uuid, account, Credit, 0, r.sourceCurrency, ToTransaction(id), now);
    forall a ensures Balance(db.ledger + [journal], a) == Balance(db.ledger, a) {
      BalanceAppend(db.ledger, journal, a);
    }
    db.ledger := db.ledger + [journal];
    answer := Created(id);
  }

  /** A simulated payment is a step of the system with the same tables, so it is part of every run proved about. */
  lemma SimulationIsStep(s: State, r: SimulationRequest, id: nat, key: string, account: nat, uuid: nat)
    requires id !in s.db.transactions && r.amount >= 0
    requires forall o | o in s.db.transactions :: s.db.transactions[o].idempotencyKey != key
    ensures var txn := SandboxPayment(r, key, account, r.sourceCurrency);
            && Enabled(s, Simulate(id, txn, uuid))
            && Next(s, Simulate(id, txn, uuid)).db == s.db.(
                 transactions := s.db.transactions[id := txn],
                 ledger := s.db.ledger + [LedgerEntry(uuid, account, Credit, 0, r.sourceCurrency, ToTransaction(id), s.clock)])
  {
  }
}
