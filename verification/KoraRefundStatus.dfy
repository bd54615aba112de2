/** The status of a refund record: who wrote it last, over sequences of events and over runs of the whole system, and
    what a replay of its command answers. */
module KoraRefundStatus {
  import opened Wrappers
  import opened KoraTables
  import opened KoraStatus
  import opened KoraWebhooks
  import opened KoraRefunds
  import opened KoraSystem
  import opened KoraLedger
  import opened KoraRefundRuns
  import KoraEventOrder
  import KoraOutcomes
  import KoraLedgerRuns

  // ----- Events over fixed tables -----

  /** The event reaches refund i: a refund event with both references whose newest match is i, of an AFM payment. */
  predicate Reaches(t: Tables, e: Event, i: nat) {
    && Begins(e.kind, "refund") && e.data.reference != "" && e.data.paymentReference != ""
    && KoraOutcomes.NewestMatch(t.refunds, i, e.data) && KoraOutcomes.HasAfmParent(t, t.refunds[i])
  }

  /** The status a callback writes, by the word it carries. */
  function WordWritten(status: string): string {
    if SpellsSuccess(status) then "success" else if SpellsRefusal(status) then "failed" else "processing"
  }

  lemma ReachedRefundWritten(t: Tables, e: Event, now: Time, uuid: nat, i: nat)
    requires LedgerInv(t) && i < |t.refunds|
    ensures var r := BusinessEvent(t, e, now, uuid);
            if Reaches(t, e, i) then
              && r.Success? && i < |r.value.refunds|
              && r.value.refunds[i] == t.refunds[i].(
                   status := WordWritten(e.data.status),
                   completedAt := if SpellsSuccess(e.data.status) then Some(now) else t.refunds[i].completedAt)
            else r.Success? ==> i < |r.value.refunds| && r.value.refunds[i] == t.refunds[i]
  {
    KindsByWord(e.kind);
    WebhookReadsWords(e.data.status);
    KoraOutcomes.NewestMeaning(t.refunds, e.data);
    EventPosts(t, e, now, uuid);
    if IsRefundEvent(e.kind) && Reaches(t, e, i) {
      ReachingReturns(t, e, now, uuid, i);
      KoraOutcomes.RefundEventWrites(t, e.data, WebhookOutcome(e.data.status), now, uuid, i);
    }
  }

  /** In a good ledger an event that reaches a refund never raises. */
  lemma ReachingReturns(t: Tables, e: Event, now: Time, uuid: nat, i: nat)
    requires LedgerInv(t) && Reaches(t, e, i)
    ensures RefundEvent(t, e.data, WebhookOutcome(e.data.status), now, uuid).Success?
  {
    KoraOutcomes.NewestMeaning(t.refunds, e.data);
    assert KoraReferencesUnique(t.ledger) && IsKora(KoraRefund(t.refunds[i].refundReference));
    assert !HasSeveralEntries(t.ledger, KoraRefund(t.refunds[i].refundReference));
  }

  /** What a sequence of events leaves of refund i: its status and its completion. */
  function LastWritten(t: Tables, hs: seq<KoraEventOrder.Handled>, i: nat): (string, Option<Time>)
    requires i < |t.refunds|
    decreases |hs|
  {
    if hs == [] then (t.refunds[i].status, t.refunds[i].completedAt)
    else
      var last, before := hs[|hs| - 1], LastWritten(t, hs[..|hs| - 1], i);
      if !Reaches(t, last.event, i) then before
      else (WordWritten(last.event.data.status), if SpellsSuccess(last.event.data.status) then Some(last.now) else before.1)
  }

  lemma ReachesStays(t: Tables, t': Tables, e: Event, i: nat)
    requires KoraEventOrder.SameRows(t, t')
    ensures Reaches(t', e, i) <==> Reaches(t, e, i)
  {
    forall j | 0 <= j < |t.refunds| ensures KoraOutcomes.Matches(t'.refunds[j], e.data) <==> KoraOutcomes.Matches(t.refunds[j], e.data) {
      assert RefundIdentity(t'.refunds[j]) == RefundIdentity(t.refunds[j]);
    }
    if i < |t.refunds| {
      assert RefundIdentity(t'.refunds[i]) == RefundIdentity(t.refunds[i]);
      var parent := t.refunds[i].transactionId;
      if parent in t.transactions {
        assert PaymentIdentity(t'.transactions[parent]) == PaymentIdentity(t.transactions[parent]);
      }
    }
  }

  /** After any sequence of events a refund's status is the one written by the last event that reaches it (success, failed
      or processing, by its word), and completed_at is the instant of the last success that reaches it; what no event
      writes stays as it was. */
  lemma {:induction false} RefundIsLastWritten(t: Tables, hs: seq<KoraEventOrder.Handled>, i: nat)
    requires LedgerInv(t) && i < |t.refunds|
    ensures var t' := KoraEventOrder.HandleAll(t, hs);
            i < |t'.refunds| && (t'.refunds[i].status, t'.refunds[i].completedAt) == LastWritten(t, hs, i)
    decreases |hs|
  {
    if hs != [] {
      var init, last := hs[..|hs| - 1], hs[|hs| - 1];
      assert hs == init + [last];
      var t' := KoraEventOrder.HandleAll(t, init);
      RefundIsLastWritten(t, init, i);
      KoraEventOrder.SequenceKeepsRows(t, init);
      ReachesStays(t, t', last.event, i);
      KoraEventOrder.HandleLast(t, init, last);
      ReachedRefundWritten(t', last.event, last.now, last.uuid, i);
    }
  }

  // ----- Runs of the whole system -----

  /** The status a provider's reply writes: its own word in lower case, processing when it has none, failed on an error. */
  function ReplyWritten(reply: ProviderReply): string {
    match reply
    case Accepted(status) => if status == "" then "processing" else Lower(status)
    case ProviderError => "failed"
  }

  lemma ReplyStored(refund: Refund, reply: ProviderReply)
    ensures StoreReply(refund, reply) == refund.(status := ReplyWritten(reply))
  {
    assert Lower("processing") == "processing";
  }

  /** The status a step writes on record i. */
  ghost function StatusWrite(s: State, a: Step, i: nat): Option<string>
    requires Enabled(s, a)
  {
    match a
    case Apply(d, uuid, commits) =>
      if commits && Reaches(s.db, s.deliveries[d].event, i) then Some(WordWritten(s.deliveries[d].event.data.status)) else None
    case InsertRefund(c) =>
      if i == |s.db.refunds| && Insertable(s.db.refunds, RowOf(s.commands[c])) then Some("requested") else None
    case StoreRefundReply(c, reply) => if s.commands[c].stored == Some(i) then Some(ReplyWritten(reply)) else None
    case _ => None
  }

  function StatusOfRecord(s: State, i: nat): Option<string> {
    if i < |s.db.refunds| then Some(s.db.refunds[i].status) else None
  }

  lemma ApplyWrites(s: State, d: nat, uuid: nat, commits: bool, i: nat)
    requires LedgerInv(s.db) && Enabled(s, Apply(d, uuid, commits))
    ensures StatusOfRecord(DoApply(s, d, uuid, commits), i)
         == if StatusWrite(s, Apply(d, uuid, commits), i).Some? then StatusWrite(s, Apply(d, uuid, commits), i) else StatusOfRecord(s, i)
  {
    var e := s.deliveries[d].event;
    if i < |s.db.refunds| {
      ReachedRefundWritten(s.db, e, s.clock, uuid, i);
    } else if Effect(s, d, uuid, commits).Some? {
      BusinessFrame(s.db, e, s.clock, uuid);
    }
  }

  lemma OthersWriteNothing(s: State, a: Step, i: nat)
    requires Enabled(s, a) && !a.Apply? && !a.InsertRefund? && !a.StoreRefundReply?
    ensures StatusOfRecord(Next(s, a), i) == StatusOfRecord(s, i)
  {
  }

  lemma StepWrites(s: State, a: Step, i: nat)
    requires LedgerInv(s.db) && Enabled(s, a)
    ensures StatusOfRecord(Next(s, a), i) == if StatusWrite(s, a, i).Some? then StatusWrite(s, a, i) else StatusOfRecord(s, i)
  {
    match a {
      case Apply(d, uuid, commits) => ApplyWrites(s, d, uuid, commits, i);
      case InsertRefund(c) =>
      case StoreRefundReply(c, reply) => ReplyStored(s.db.refunds[s.commands[c].stored.value], reply);
      case _ => OthersWriteNothing(s, a, i);
    }
  }

  /** The status written last on record i in a run, the given one if there is none. */
  ghost function LastStatus(s: State, steps: seq<Step>, i: nat, initial: Option<string>): Option<string>
    requires IsRun(s, steps)
    decreases steps
  {
    if steps == [] then initial
    else
      var w := StatusWrite(s, steps[0], i);
      LastStatus(Next(s, steps[0]), steps[1..], i, if w.Some? then w else initial)
  }

  /** Over any run, concurrent commands, callbacks and crashes included, a record reads what was written last: requested by
      its insert, the word of the provider's reply or failed by its command, success, failed or processing by a callback
      that reaches it. */
  lemma {:induction false} RecordReadsLastStatus(s: State, steps: seq<Step>, i: nat)
    requires LedgerInv(s.db) && IsRun(s, steps)
    ensures StatusOfRecord(Run(s, steps), i) == LastStatus(s, steps, i, StatusOfRecord(s, i))
    decreases steps
  {
    if steps != [] {
      StepWrites(s, steps[0], i);
      KoraLedgerRuns.StepPosts(s, steps[0]);
      RecordReadsLastStatus(Next(s, steps[0]), steps[1..], i);
    }
  }

  // ----- What a replay shows -----

  ghost predicate Unwritten(s: State, steps: seq<Step>, i: nat)
    requires IsRun(s, steps)
    decreases steps
  {
    steps != [] ==> StatusWrite(s, steps[0], i).None? && Unwritten(Next(s, steps[0]), steps[1..], i)
  }

  lemma {:induction false} UnwrittenKeepsStatus(s: State, steps: seq<Step>, i: nat, initial: Option<string>)
    requires IsRun(s, steps) && Unwritten(s, steps, i)
    ensures LastStatus(s, steps, i, initial) == initial
    decreases steps
  {
    if steps != [] {
      UnwrittenKeepsStatus(Next(s, steps[0]), steps[1..], i, initial);
    }
  }

  /** The record a command stored, once its reply is in and while nothing else writes it. */
  lemma RecordKeepsReply(s: State, s1: State, c: nat, reply: ProviderReply, steps: seq<Step>, i: nat)
    requires RefundInv(s) && LedgerInv(s.db) && Enabled(s, StoreRefundReply(c, reply)) && s.commands[c].stored == Some(i)
    requires s1 == Next(s, StoreRefundReply(c, reply)) && IsRun(s1, steps) && Unwritten(s1, steps, i)
    ensures StatusOfRecord(Run(s1, steps), i) == Some(ReplyWritten(reply))
  {
    StepWrites(s, StoreRefundReply(c, reply), i);
    KoraLedgerRuns.StepPosts(s, StoreRefundReply(c, reply));
    RecordReadsLastStatus(s1, steps, i);
    UnwrittenKeepsStatus(s1, steps, i, StatusOfRecord(s1, i));
  }

  lemma StoredKey(s: State, c: nat, reply: ProviderReply, i: nat)
    requires RefundInv(s) && Enabled(s, StoreRefundReply(c, reply)) && s.commands[c].stored == Some(i)
    ensures var s1 := Next(s, StoreRefundReply(c, reply));
            RefundInv(s1) && i < |s1.db.refunds| && s1.db.refunds[i].idempotencyKey == Key(s.commands[c].request)
  {
    StepKeepsRefunds(s, StoreRefundReply(c, reply));
    assert CommandOk(s.db, s.commands[c]);
    var before, after := s.db.refunds[i], DoStoreReply(s, c, reply).db.refunds[i];
    assert RefundIdentity(before) == RefundIdentity(RowOf(s.commands[c]));
    ReplyStored(before, reply);
  }

  /** A command whose provider call failed leaves a failed record: as long as no callback reaches it, an acceptable command
      with its key is answered with that record, failed and without funds movement; and one whose call was accepted shows
      the provider's word. */
  lemma ReplayShowsReply(s: State, s1: State, c: nat, reply: ProviderReply, steps: seq<Step>, r: Request, later: ProviderReply)
    requires RefundInv(s) && LedgerInv(s.db) && Enabled(s, StoreRefundReply(c, reply)) && Key(r) == Key(s.commands[c].request)
    requires s1 == Next(s, StoreRefundReply(c, reply)) && IsRun(s1, steps)
    requires Unwritten(s1, steps, s.commands[c].stored.value) && Acceptable(Run(s1, steps).db, r)
    ensures var (response, t) := Commanded(Run(s1, steps).db, r, later);
            && response.Replayed? && t == Run(s1, steps).db
            && response.refund.status == ReplyWritten(reply)
            && (response.fundsMovement <==> ReplyWritten(reply) in {"requested", "processing", "success"})
  {
    var i := s.commands[c].stored.value;
    StoredKey(s, c, reply, i);
    RecordKeepsReply(s, s1, c, reply, steps, i);
    ReplayIsStable(s1, steps, i, r);
  }
}
