/** api_gateway/main.py:1591-1713, the refund command: read and decide, insert the record (first commit),
    call the provider, store its answer (second commit). */
module KoraRefunds {
  import opened Wrappers
  import opened KoraTables
  import opened KoraStatus
  import Rounding

  /** One cent in the 10^-8 units of stored amounts. */
  const CENT := 1_000_000

  function QuantizeCents(amount: int): int {
    Rounding.RoundHalfEven(amount, CENT) * CENT
  }

  /** A command as received: path and body, headers, the caller and the deployment mode. */
  datatype Request = Request(
    user: nat,
    pathTransaction: nat,
    bodyTransaction: nat,
    amount: Option<int>,
    execute: bool,
    keyHeader: string,
    confirmationHeader: string,
    development: bool)

  function Key(r: Request): string {
    Strip(r.keyHeader)
  }

  /** The provider-side reference of a key: an injective stand-in for the digest prefix of main.py:1649. */
  function RefundReference(key: string): string {
    "afm-ref-" + key
  }

  datatype Decision =
    | Rejected(httpStatus: int)
    | Validated(amount: int)
    | Replay(index: nat)
    | Proceed(amount: int)

  function RequestedAmount(r: Request, txn: Transaction): int {
    QuantizeCents(if r.amount.Some? && r.amount.value != 0 then r.amount.value else txn.amount)
  }

  /** The record an idempotency key already has. */
  function FindKey(refunds: seq<Refund>, key: string): (r: Option<nat>)
    ensures r.None? <==> forall i | 0 <= i < |refunds| :: refunds[i].idempotencyKey != key
    ensures r.Some? ==> r.value < |refunds| && refunds[r.value].idempotencyKey == key
  {
    if refunds == [] then None
    else if refunds[|refunds| - 1].idempotencyKey == key then Some(|refunds| - 1)
    else FindKey(refunds[..|refunds| - 1], key)
  }

  /** Everything the command decides before its first write, in the order of its checks. */
  function Decide(t: Tables, r: Request): Decision {
    if r.bodyTransaction != r.pathTransaction then Rejected(422)
    else if r.pathTransaction !in t.transactions then Rejected(404)
    else
      var txn := t.transactions[r.pathTransaction];
      var amount := RequestedAmount(r, txn);
      if txn.user != r.user || !txn.viaKora || txn.ledgerNamespace != AFM_PAYMENTS then Rejected(404)
      else if txn.isPayout then Rejected(409)
      else if !txn.status.Completed? && !txn.status.Refunded? then Rejected(409)
      else if txn.pspTransactionId == "" then Rejected(409)
      else if amount > txn.amount then Rejected(422)
      else if r.execute && |Key(r)| < 8 then Rejected(400)
      else if r.execute && r.confirmationHeader != "CONFIRM" then Rejected(428)
      else if !r.execute then Validated(amount)
      else if r.development then Rejected(409)
      else match FindKey(t.refunds, Key(r))
        case Some(i) => Replay(i)
        case None => Proceed(amount)
  }

  function NewRefund(r: Request, txn: Transaction, amount: int): Refund {
    Refund(r.pathTransaction, RefundReference(Key(r)), Key(r), txn.pspTransactionId, amount, txn.currency, "requested", None)
  }

  /** The unique columns of models.py:244-245 accept the new row. */
  predicate Insertable(refunds: seq<Refund>, refund: Refund) {
    forall i | 0 <= i < |refunds| ::
      refunds[i].idempotencyKey != refund.idempotencyKey && refunds[i].refundReference != refund.refundReference
  }

  datatype ProviderReply = Accepted(status: string) | ProviderError

  /** The second commit: the status follows the provider's immediate reply, completed_at is left alone. */
  function StoreReply(refund: Refund, reply: ProviderReply): Refund {
    match reply
    case Accepted(status) => refund.(status := Lower(if status != "" then status else "processing"))
    case ProviderError => refund.(status := "failed")
  }

  datatype Response =
    | HttpError(httpStatus: int)
    | Preview(amount: int)
    | Replayed(refund: Refund, fundsMovement: bool)
    | Executed(refund: Refund)

  /** What a replay reports about the money. */
  predicate FundsMovement(status: string) {
    status in {"requested", "processing", "success"}
  }

  /** What a command answers and leaves, its provider call answered by `reply`. */
  function Commanded(t: Tables, r: Request, reply: ProviderReply): (Response, Tables) {
    match Decide(t, r)
    case Rejected(code) => (HttpError(code), t)
    case Validated(amount) => (Preview(amount), t)
    case Replay(i) => (Replayed(t.refunds[i], FundsMovement(t.refunds[i].status)), t)
    case Proceed(amount) =>
      var refund := NewRefund(r, t.transactions[r.pathTransaction], amount);
      if !Insertable(t.refunds, refund) then (HttpError(500), t)
      else
        var stored := StoreReply(refund, reply);
        (if reply.Accepted? then Executed(stored) else HttpError(502), t.(refunds := t.refunds + [stored]))
  }

  /** The conditions of a command other than an unused key, in no particular order: an executed, confirmed, keyed request
      outside development, by the owner, for a settled non-payout AFM Kora payment with a provider reference, within its
      amount. */
  predicate Acceptable(t: Tables, r: Request) {
    && r.execute && r.confirmationHeader == "CONFIRM" && |Key(r)| >= 8 && !r.development
    && r.bodyTransaction == r.pathTransaction && r.pathTransaction in t.transactions
    && var txn := t.transactions[r.pathTransaction];
       && txn.user == r.user && txn.viaKora && txn.ledgerNamespace == AFM_PAYMENTS
       && !txn.isPayout && (txn.status.Completed? || txn.status.Refunded?) && txn.pspTransactionId != ""
       && RequestedAmount(r, txn) <= txn.amount
  }

  /** The command creates a record: acceptable, under a key that has none yet. */
  predicate MayProceed(t: Tables, r: Request) {
    Acceptable(t, r) && forall i | 0 <= i < |t.refunds| :: t.refunds[i].idempotencyKey != Key(r)
  }

  /** The record a command would insert collides with no unique column. */
  predicate RecordFits(t: Tables, r: Request) {
    && r.pathTransaction in t.transactions
    && var txn := t.transactions[r.pathTransaction]; Insertable(t.refunds, NewRefund(r, txn, RequestedAmount(r, txn)))
  }

  /** create_kora_refund, undisturbed. A record is created exactly when all conditions hold and it fits the unique
      columns; nothing but the refunds ever changes, and no existing refund. */
  method CreateKoraRefund(db: Database, r: Request, reply: ProviderReply) returns (response: Response)
    modifies db
    ensures (response, db.View()) == Commanded(old(db.View()), r, reply)
    ensures db.View() == old(db.View()).(refunds := db.refunds) && old(db.refunds) <= db.refunds
    ensures if MayProceed(old(db.View()), r) && RecordFits(old(db.View()), r) then
              && |db.refunds| == |old(db.refunds)| + 1
              && var added := db.refunds[|old(db.refunds)|];
                 && added.idempotencyKey == Strip(r.keyHeader) && added.transactionId == r.pathTransaction && added.completedAt.None?
                 && added.paymentReference == old(db.transactions)[r.pathTransaction].pspTransactionId
                 && added.currency == old(db.transactions)[r.pathTransaction].currency
                 && added.status == (if reply.ProviderError? then "failed" else if reply.status == "" then "processing" else Lower(reply.status))
                 && response == (if reply.Accepted? then Executed(added) else HttpError(502))
            else db.refunds == old(db.refunds) && !response.Executed?
  {
    ProceedsIff(db.View(), r);
    if r.bodyTransaction != r.pathTransaction {
      return HttpError(422);
    }
    if r.pathTransaction !in db.transactions {
      return HttpError(404);
    }
    var transaction := db.transactions[r.pathTransaction];
    if transaction.user != r.user || !transaction.viaKora || transaction.ledgerNamespace != AFM_PAYMENTS {
      return HttpError(404);
    }
    if transaction.isPayout {
      return HttpError(409);
    }
    if !transaction.status.Completed? && !transaction.status.Refunded? {
      return HttpError(409);
    }
    if transaction.pspTransactionId == "" {
      return HttpError(409);
    }
    var amount := transaction.amount;
    if r.amount.Some? && r.amount.value != 0 {
      amount := r.amount.value;
    }
    amount := QuantizeCents(amount);
    if amount > transaction.amount {
      return HttpError(422);
    }
    var idempotencyKey := Strip(r.keyHeader);
    if r.execute && |idempotencyKey| < 8 {
      return HttpError(400);
    }
    if r.execute && r.confirmationHeader != "CONFIRM" {
      return HttpError(428);
    }
    if !r.execute {
      return Preview(amount);
    }
    if r.development {
      return HttpError(409);
    }
    var refundReference := RefundReference(idempotencyKey);
    var existing := FindKey(db.refunds, idempotencyKey);
    if existing.Some? {
      var existingRefund := db.refunds[existing.value];
      return Replayed(existingRefund, existingRefund.status in {"requested", "processing", "success"});
    }
    var refund := Refund(r.pathTransaction, refundReference, idempotencyKey, transaction.pspTransactionId, amount,
                         transaction.currency, "requested", None);
    if !Insertable(db.refunds, refund) {
      return HttpError(500);
    }
    ghost var before := db.refunds;
    db.refunds := db.refunds + [refund];
    var index := |db.refunds| - 1;
    if reply.Accepted? {
      refund := refund.(status := Lower(if reply.status != "" then reply.status else "processing"));
      db.refunds := db.refunds[index := refund];
      response := Executed(refund);
    } else {
      refund := refund.(status := "failed");
      db.refunds := db.refunds[index := refund];
      response := HttpError(502);
    }
    assert db.refunds == before + [refund];
    assert Lower("processing") == "processing";
  }

  /** The checks of the command, in whatever order, decide whether it goes on to create a record. */
  lemma ProceedsIff(t: Tables, r: Request)
    ensures Decide(t, r).Proceed? <==> MayProceed(t, r)
    ensures Decide(t, r).Proceed? ==> Decide(t, r).amount == RequestedAmount(r, t.transactions[r.pathTransaction])
  {
  }

  /** The amount of an accepted command lies between zero and the payment, to the cent. */
  lemma AcceptedAmount(t: Tables, r: Request)
    requires Decide(t, r).Proceed?
    requires r.amount.Some? ==> r.amount.value > 0
    requires t.transactions[r.pathTransaction].amount >= 0
    ensures var txn := t.transactions[r.pathTransaction];
            var amount := Decide(t, r).amount;
            && 0 <= amount <= txn.amount && amount % CENT == 0
            && txn.viaKora && !txn.isPayout && txn.pspTransactionId != "" && (txn.status.Completed? || txn.status.Refunded?)
  {
    var txn := t.transactions[r.pathTransaction];
    var asked := if r.amount.Some? && r.amount.value != 0 then r.amount.value else txn.amount;
    Rounding.HalfEvenIsNearest(asked, CENT);
  }

  /** The amount of a command: what it asks for, or the whole payment if it asks for nothing, to the nearest cent, a tie to
      the even one. */
  lemma RequestedAmountMeaning(r: Request, txn: Transaction)
    ensures var asked := match r.amount
                         case Some(v) => if v == 0 then txn.amount else v
                         case None => txn.amount;
            var amount := RequestedAmount(r, txn);
            && amount % 1_000_000 == 0
            && -1_000_000 <= 2 * (amount - asked) <= 1_000_000
            && (2 * (amount - asked) == 1_000_000 || 2 * (amount - asked) == -1_000_000 ==> (amount / 1_000_000) % 2 == 0)
  {
    var asked := if r.amount.Some? && r.amount.value != 0 then r.amount.value else txn.amount;
    Rounding.HalfEvenIsNearest(asked, CENT);
    Rounding.HalfEvenTies(asked, CENT);
  }

  // ----- The answer to a refused command -----

  datatype Check = Check(passes: bool, code: int)

  /** The checks in their order, each with the code of its refusal. */
  function Checks(t: Tables, r: Request): seq<Check> {
    var known := r.pathTransaction in t.transactions
      && t.transactions[r.pathTransaction].user == r.user && t.transactions[r.pathTransaction].viaKora
      && t.transactions[r.pathTransaction].ledgerNamespace == "afm_payments";
    [Check(r.bodyTransaction == r.pathTransaction, 422), Check(known, 404)] +
    if !known then [] else
      var txn := t.transactions[r.pathTransaction];
      [Check(!txn.isPayout, 409),
       Check(txn.status == Completed || txn.status == Refunded, 409),
       Check(txn.pspTransactionId != "", 409),
       Check(RequestedAmount(r, txn) <= txn.amount, 422),
       Check(r.execute ==> |Key(r)| >= 8, 400),
       Check(r.execute ==> r.confirmationHeader == "CONFIRM", 428),
       Check(r.execute ==> !r.development, 409)]
  }

  function FirstFailure(checks: seq<Check>): Option<int> {
    if checks == [] then None
    else if !checks[0].passes then Some(checks[0].code)
    else FirstFailure(checks[1..])
  }

  lemma FirstFailureOf(c: Check, rest: seq<Check>)
    ensures FirstFailure([c] + rest) == if c.passes then FirstFailure(rest) else Some(c.code)
  {
    assert ([c] + rest)[1..] == rest;
  }

  function Then(c: Check, rest: Option<int>): Option<int> {
    if c.passes then rest else Some(c.code)
  }

  lemma TwoChecks(a: Check, b: Check, rest: seq<Check>)
    ensures FirstFailure([a, b] + rest) == Then(a, Then(b, FirstFailure(rest)))
  {
    assert [a, b] + rest == [a] + ([b] + rest);
    FirstFailureOf(a, [b] + rest);
    FirstFailureOf(b, rest);
  }

  lemma SevenChecks(a: Check, b: Check, c: Check, d: Check, e: Check, f: Check, g: Check)
    ensures FirstFailure([a, b, c, d, e, f, g]) == Then(a, Then(b, Then(c, Then(d, Then(e, Then(f, Then(g, None)))))))
  {
    TwoChecks(f, g, []);
    TwoChecks(d, e, [f, g] + []);
    TwoChecks(b, c, [d, e] + ([f, g] + []));
    FirstFailureOf(a, [b, c] + ([d, e] + ([f, g] + [])));
    assert [a, b, c, d, e, f, g] == [a] + ([b, c] + ([d, e] + ([f, g] + [])));
  }

  /** A command is refused with the code of the first check it fails; one that passes them all is previewed when it is not
      to be executed, else it replays the record of its key or creates one. */
  lemma RefusedByFirstFailure(t: Tables, r: Request)
    ensures var failure := FirstFailure(Checks(t, r));
            match Decide(t, r)
            case Rejected(code) => failure == Some(code)
            case Validated(amount) => failure == None && !r.execute && amount == RequestedAmount(r, t.transactions[r.pathTransaction])
            case Replay(i) => failure == None && r.execute && i < |t.refunds| && t.refunds[i].idempotencyKey == Key(r)
            case Proceed(amount) =>
              && failure == None && r.execute && amount == RequestedAmount(r, t.transactions[r.pathTransaction])
              && forall i | 0 <= i < |t.refunds| :: t.refunds[i].idempotencyKey != Key(r)
  {
    var checks := Checks(t, r);
    TwoChecks(checks[0], checks[1], checks[2..]);
    assert checks == [checks[0], checks[1]] + checks[2..];
    if |checks| == 9 {
      SevenChecks(checks[2], checks[3], checks[4], checks[5], checks[6], checks[7], checks[8]);
      assert checks[2..] == [checks[2], checks[3], checks[4], checks[5], checks[6], checks[7], checks[8]];
    } else {
      assert checks[2..] == [];
    }
  }
}
