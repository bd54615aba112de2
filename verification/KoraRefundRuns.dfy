/** Refund commands and refund callbacks over whole runs. */
module KoraRefundRuns {
  import opened Wrappers
  import opened KoraTables
  import opened KoraStatus
  import opened KoraWebhooks
  import opened KoraRefunds
  import opened KoraSystem
  import opened KoraLedger

  // ----- At most one record and one initiation per key -----

  predicate KeysUnique(refunds: seq<Refund>) {
    forall i, j | 0 <= i < j < |refunds| :: refunds[i].idempotencyKey != refunds[j].idempotencyKey
  }

  predicate HasKey(refunds: seq<Refund>, key: string) {
    exists i | 0 <= i < |refunds| :: refunds[i].idempotencyKey == key
  }

  /** What a command read before it proceeded: a settled, non-payout Kora payment worth at least the refund. */
  predicate Eligible(t: Tables, k: Command) {
    && k.request.pathTransaction in t.transactions
    && PaymentIdentity(t.transactions[k.request.pathTransaction]) == PaymentIdentity(k.parent)
    && k.parent.viaKora && !k.parent.isPayout && (k.parent.status.Completed? || k.parent.status.Refunded?)
    && 0 <= k.amount <= k.parent.amount
  }

  predicate OwnsRow(refunds: seq<Refund>, k: Command) {
    k.stored.Some? ==> k.stored.value < |refunds| && RefundIdentity(refunds[k.stored.value]) == RefundIdentity(RowOf(k))
  }

  predicate CommandOk(t: Tables, k: Command) {
    && Eligible(t, k) && OwnsRow(t.refunds, k)
    && (k.phase.Reading? ==> k.stored.None?) && (k.phase.Stored? ==> k.stored.Some?)
  }

  predicate RowsDistinct(commands: map<nat, Command>) {
    forall c, d | c in commands && d in commands && commands[c].stored.Some? && commands[c].stored == commands[d].stored :: c == d
  }

  predicate CommandsInv(s: State) {
    && (forall id | id in s.db.transactions :: s.db.transactions[id].amount >= 0)
    && (forall c | c in s.commands :: CommandOk(s.db, s.commands[c]))
    && RowsDistinct(s.commands)
  }

  predicate InitiationsInv(s: State) {
    && (forall i, j | 0 <= i < j < |s.initiated| :: s.initiated[i] != s.initiated[j])
    && (forall key | key in s.initiated :: HasKey(s.db.refunds, key))
    && (forall c | c in s.commands && s.commands[c].phase.Stored? :: Key(s.commands[c].request) !in s.initiated)
  }

  predicate RefundInv(s: State) {
    KeysUnique(s.db.refunds) && RefundReferencesUnique(s.db.refunds) && CommandsInv(s) && InitiationsInv(s)
  }

  lemma KeysStay(x: seq<Refund>, y: seq<Refund>)
    requires KeysUnique(x) && |x| == |y| && RefundsExtend(x, y)
    ensures KeysUnique(y)
  {
    forall i, j | 0 <= i < j < |y| ensures y[i].idempotencyKey != y[j].idempotencyKey {
      assert RefundIdentity(y[i]) == RefundIdentity(x[i]) && RefundIdentity(y[j]) == RefundIdentity(x[j]);
    }
  }

  lemma HasKeyStays(x: seq<Refund>, y: seq<Refund>, key: string)
    requires RefundsExtend(x, y) && HasKey(x, key)
    ensures HasKey(y, key)
  {
    var i :| 0 <= i < |x| && x[i].idempotencyKey == key;
    assert RefundIdentity(y[i]) == RefundIdentity(x[i]);
  }

  lemma CommandStays(t: Tables, t': Tables, k: Command)
    requires PaymentsExtend(t.transactions, t'.transactions) && RefundsExtend(t.refunds, t'.refunds)
    requires CommandOk(t, k)
    ensures CommandOk(t', k)
  {
    var id := k.request.pathTransaction;
    assert PaymentIdentity(t'.transactions[id]) == PaymentIdentity(t.transactions[id]);
    if k.stored.Some? {
      var i := k.stored.value;
      assert RefundIdentity(t'.refunds[i]) == RefundIdentity(t.refunds[i]);
    }
  }

  /** A step that is not a refund command step keeps the invariant: it only writes mutable columns. */
  lemma ForeignStepKeepsRefunds(s: State, s': State)
    requires RefundInv(s) && s'.commands == s.commands && s'.initiated == s.initiated
    requires PaymentsExtend(s.db.transactions, s'.db.transactions)
    requires |s'.db.refunds| == |s.db.refunds| && RefundsExtend(s.db.refunds, s'.db.refunds)
    requires forall id | id in s'.db.transactions && id !in s.db.transactions :: s'.db.transactions[id].amount >= 0
    ensures RefundInv(s')
  {
    KeysStay(s.db.refunds, s'.db.refunds);
    UniqueStays(s.db.refunds, s'.db.refunds);
    forall c | c in s.commands ensures CommandOk(s'.db, s.commands[c]) {
      CommandStays(s.db, s'.db, s.commands[c]);
    }
    forall key | key in s.initiated ensures HasKey(s'.db.refunds, key) {
      HasKeyStays(s.db.refunds, s'.db.refunds, key);
    }
    forall id | id in s'.db.transactions ensures s'.db.transactions[id].amount >= 0 {
      if id in s.db.transactions {
        assert PaymentIdentity(s'.db.transactions[id]) == PaymentIdentity(s.db.transactions[id]);
      }
    }
  }

  lemma ReadKeepsRefunds(s: State, c: nat, r: Request)
    requires RefundInv(s) && Enabled(s, ReadRefund(c, r))
    ensures RefundInv(DoReadRefund(s, c, r))
  {
    if Decide(s.db, r).Proceed? {
      AcceptedAmount(s.db, r);
    }
  }

  lemma NewRowIsOwned(t: Tables, k: Command)
    requires Eligible(t, k)
    ensures CommandOk(t.(refunds := t.refunds + [RowOf(k)]), k.(stored := Some(|t.refunds|), phase := Stored))
  {
  }

  lemma FreshRowDistinct(commands: map<nat, Command>, c: nat, k: Command, row: nat)
    requires RowsDistinct(commands) && k.stored == Some(row)
    requires forall d | d in commands && commands[d].stored.Some? :: commands[d].stored.value < row
    ensures RowsDistinct(commands[c := k])
  {
  }

  lemma InsertKeepsCommands(s: State, c: nat)
    requires CommandsInv(s) && Enabled(s, InsertRefund(c)) && Insertable(s.db.refunds, RowOf(s.commands[c]))
    ensures CommandsInv(DoInsertRefund(s, c))
  {
    var s', k := DoInsertRefund(s, c), s.commands[c];
    assert CommandOk(s.db, k);
    NewRowIsOwned(s.db, k);
    forall d | d in s.commands && d != c ensures CommandOk(s'.db, s'.commands[d]) {
      CommandStays(s.db, s'.db, s.commands[d]);
    }
    forall d | d in s.commands && s.commands[d].stored.Some? ensures s.commands[d].stored.value < |s.db.refunds| {
      assert CommandOk(s.db, s.commands[d]);
    }
    FreshRowDistinct(s.commands, c, s'.commands[c], |s.db.refunds|);
  }

  /** A command that crashes, or whose insert is refused, keeps its row if it had one. */
  lemma EndKeepsRefunds(s: State, c: nat)
    requires RefundInv(s) && c in s.commands
    ensures RefundInv(s.(commands := s.commands[c := s.commands[c].(phase := Over)]))
  {
    assert CommandOk(s.db, s.commands[c]);
  }

  /** The key of a row just inserted was not sent to the provider before: every key sent has an older row. */
  lemma InsertKeepsInitiations(s: State, c: nat)
    requires RefundInv(s) && Enabled(s, InsertRefund(c)) && Insertable(s.db.refunds, RowOf(s.commands[c]))
    ensures InitiationsInv(DoInsertRefund(s, c))
  {
    var s' := DoInsertRefund(s, c);
    forall key | key in s.initiated ensures HasKey(s'.db.refunds, key) {
      HasKeyStays(s.db.refunds, s'.db.refunds, key);
    }
  }

  lemma InsertKeepsRefunds(s: State, c: nat)
    requires RefundInv(s) && Enabled(s, InsertRefund(c))
    ensures RefundInv(DoInsertRefund(s, c))
  {
    if Insertable(s.db.refunds, RowOf(s.commands[c])) {
      InsertKeepsCommands(s, c);
      InsertKeepsInitiations(s, c);
    } else {
      EndKeepsRefunds(s, c);
    }
  }

  lemma OwnKey(s: State, c: nat)
    requires RefundInv(s) && c in s.commands && s.commands[c].phase.Stored?
    ensures s.commands[c].stored.Some? && s.commands[c].stored.value < |s.db.refunds|
    ensures s.db.refunds[s.commands[c].stored.value].idempotencyKey == Key(s.commands[c].request)
  {
    assert CommandOk(s.db, s.commands[c]);
    assert OwnsRow(s.db.refunds, s.commands[c]);
  }

  lemma CallKeepsCommands(s: State, c: nat)
    requires RefundInv(s) && Enabled(s, CallProvider(c))
    ensures CommandsInv(DoCallProvider(s, c))
  {
    OwnKey(s, c);
  }

  /** Two commands waiting to call the provider hold different rows, hence different keys. */
  lemma CallKeepsInitiations(s: State, c: nat)
    requires RefundInv(s) && Enabled(s, CallProvider(c))
    ensures InitiationsInv(DoCallProvider(s, c))
  {
    OwnKey(s, c);
    assert HasKey(s.db.refunds, Key(s.commands[c].request));
    forall d | d in s.commands && d != c && s.commands[d].phase.Stored?
      ensures Key(s.commands[d].request) != Key(s.commands[c].request)
    {
      OneStoredPerKey(s, c, d);
    }
  }

  lemma StoreReplyKeepsRefunds(s: State, c: nat, reply: ProviderReply)
    requires RefundInv(s) && Enabled(s, StoreRefundReply(c, reply))
    ensures RefundInv(DoStoreReply(s, c, reply))
  {
    var s1 := s.(db := DoStoreReply(s, c, reply).db);
    StoreReplyGrows(s, c, reply);
    ForeignStepKeepsRefunds(s, s1);
    EndKeepsRefunds(s1, c);
  }

  predicate IsRefundStep(a: Step) {
    a.ReadRefund? || a.InsertRefund? || a.CallProvider? || a.StoreRefundReply? || a.CrashRefund?
  }

  lemma OthersIgnoreCommands(s: State, a: Step)
    requires Enabled(s, a) && !IsRefundStep(a)
    ensures var s' := Next(s, a);
            && s'.commands == s.commands && s'.initiated == s.initiated && |s'.db.refunds| == |s.db.refunds|
            && forall id | id in s'.db.transactions && id !in s.db.transactions :: s'.db.transactions[id].amount >= 0
  {
    match a {
      case Apply(d, uuid, commits) =>
        if Effect(s, d, uuid, commits).Some? {
          BusinessFrame(s.db, s.deliveries[d].event, s.clock, uuid);
        }
      case _ =>
    }
  }

  lemma CallKeepsRefunds(s: State, c: nat)
    requires RefundInv(s) && Enabled(s, CallProvider(c))
    ensures RefundInv(DoCallProvider(s, c))
  {
    CallKeepsCommands(s, c);
    CallKeepsInitiations(s, c);
  }

  lemma OthersKeepRefunds(s: State, a: Step)
    requires RefundInv(s) && Enabled(s, a) && !IsRefundStep(a)
    ensures RefundInv(Next(s, a))
  {
    StepFrame(s, a);
    OthersIgnoreCommands(s, a);
    ForeignStepKeepsRefunds(s, Next(s, a));
  }

  lemma StepKeepsRefunds(s: State, a: Step)
    requires RefundInv(s) && Enabled(s, a)
    ensures RefundInv(Next(s, a))
  {
    match a {
      case ReadRefund(c, r) => ReadKeepsRefunds(s, c, r);
      case InsertRefund(c) => InsertKeepsRefunds(s, c);
      case CallProvider(c) => CallKeepsRefunds(s, c);
      case StoreRefundReply(c, reply) => StoreReplyKeepsRefunds(s, c, reply);
      case CrashRefund(c) => EndKeepsRefunds(s, c);
      case _ => OthersKeepRefunds(s, a);
    }
  }

  /** Command c inserted record i. */
  predicate Inserted(s: State, c: nat, i: int) {
    c in s.commands && 0 <= i && s.commands[c].stored == Some(i)
  }

  ghost predicate Explained(s: State, i: int) {
    exists c :: Inserted(s, c, i)
  }

  /** Every record beyond the first `base` was inserted by a command of the run. */
  ghost predicate RecordsExplained(s: State, base: nat) {
    forall i | base <= i < |s.db.refunds| :: Explained(s, i)
  }

  lemma InsertKeepsRows(s: State, c: nat)
    requires RefundInv(s) && Enabled(s, InsertRefund(c))
    ensures var s' := DoInsertRefund(s, c);
            && (forall d | d in s.commands && s.commands[d].stored.Some? :: d in s'.commands && s'.commands[d].stored == s.commands[d].stored)
            && (|s'.db.refunds| == |s.db.refunds| || (|s'.db.refunds| == |s.db.refunds| + 1 && Inserted(s', c, |s.db.refunds|)))
  {
    assert CommandOk(s.db, s.commands[c]);
  }

  lemma CommandKeepsRows(s: State, a: Step)
    requires Enabled(s, a) && IsRefundStep(a) && !a.InsertRefund?
    ensures var s' := Next(s, a);
            && (forall d | d in s.commands && s.commands[d].stored.Some? :: d in s'.commands && s'.commands[d].stored == s.commands[d].stored)
            && |s'.db.refunds| == |s.db.refunds|
  {
  }

  /** Rows keep their command, and only an insert adds one, its own. */
  lemma StepKeepsRows(s: State, a: Step)
    requires RefundInv(s) && Enabled(s, a)
    ensures var s' := Next(s, a);
            && (forall c | c in s.commands && s.commands[c].stored.Some? :: c in s'.commands && s'.commands[c].stored == s.commands[c].stored)
            && (|s'.db.refunds| == |s.db.refunds|
                || (|s'.db.refunds| == |s.db.refunds| + 1 && a.InsertRefund? && Inserted(s', a.c, |s.db.refunds|)))
  {
    if !IsRefundStep(a) {
      OthersIgnoreCommands(s, a);
    } else if a.InsertRefund? {
      InsertKeepsRows(s, a.c);
    } else {
      CommandKeepsRows(s, a);
    }
  }

  lemma RowsExplain(s: State, s': State, base: nat, last: nat)
    requires RecordsExplained(s, base)
    requires forall c | c in s.commands && s.commands[c].stored.Some? :: c in s'.commands && s'.commands[c].stored == s.commands[c].stored
    requires |s'.db.refunds| == |s.db.refunds|
             || (|s'.db.refunds| == |s.db.refunds| + 1 && Inserted(s', last, |s.db.refunds|))
    ensures RecordsExplained(s', base)
  {
    forall i | base <= i < |s'.db.refunds| ensures Explained(s', i) {
      if i < |s.db.refunds| {
        assert Explained(s, i);
        var c :| Inserted(s, c, i);
        assert Inserted(s', c, i);
      } else {
        assert Inserted(s', last, i);
      }
    }
  }

  lemma {:induction false} RunKeepsRefunds(s: State, steps: seq<Step>, base: nat)
    requires RefundInv(s) && IsRun(s, steps) && RecordsExplained(s, base)
    ensures RefundInv(Run(s, steps)) && RecordsExplained(Run(s, steps), base)
    decreases steps
  {
    if steps != [] {
      StepKeepsRefunds(s, steps[0]);
      StepKeepsRows(s, steps[0]);
      RowsExplain(s, Next(s, steps[0]), base, if steps[0].InsertRefund? then steps[0].c else 0);
      RunKeepsRefunds(Next(s, steps[0]), steps[1..], base);
    }
  }

  /** Record i is the row of a command that had read an eligible parent. */
  ghost predicate HasEligibleCommand(s: State, i: nat)
    requires i < |s.db.refunds|
  {
    exists c :: Inserted(s, c, i) && Eligible(s.db, s.commands[c])
                && RefundIdentity(s.db.refunds[i]) == RefundIdentity(RowOf(s.commands[c]))
  }

  /** For every run, with any number of concurrent commands on one key: one record and one provider call per key,
      and each record made in the run is backed by an eligible parent as its command read it. */
  lemma RefundCommandsAreSafe(s: State, steps: seq<Step>)
    requires RefundInv(s) && IsRun(s, steps)
    ensures var s' := Run(s, steps);
            && KeysUnique(s'.db.refunds)
            && (forall i, j | 0 <= i < j < |s'.initiated| :: s'.initiated[i] != s'.initiated[j])
            && (forall key | key in s'.initiated :: HasKey(s'.db.refunds, key))
            && (forall i | |s.db.refunds| <= i < |s'.db.refunds| :: HasEligibleCommand(s', i))
  {
    var s' := Run(s, steps);
    RunKeepsRefunds(s, steps, |s.db.refunds|);
    forall i | |s.db.refunds| <= i < |s'.db.refunds| ensures HasEligibleCommand(s', i) {
      assert Explained(s', i);
      var c :| Inserted(s', c, i);
      assert CommandOk(s'.db, s'.commands[c]);
    }
  }

  /** Once a key has a record, no later command with the key creates another: after any run a command with it replays
      that very record if and only if it is acceptable, and the record keeps its amount, payment and references. */
  lemma ReplayIsStable(s: State, steps: seq<Step>, i: nat, r: Request)
    requires RefundInv(s) && IsRun(s, steps)
    requires i < |s.db.refunds| && s.db.refunds[i].idempotencyKey == Key(r)
    ensures !Decide(Run(s, steps).db, r).Proceed?
    ensures Decide(Run(s, steps).db, r) == Replay(i) <==> Acceptable(Run(s, steps).db, r)
    ensures Decide(Run(s, steps).db, r).Replay? ==> Decide(Run(s, steps).db, r) == Replay(i)
    ensures i < |Run(s, steps).db.refunds| && RefundIdentity(Run(s, steps).db.refunds[i]) == RefundIdentity(s.db.refunds[i])
  {
    var t := Run(s, steps).db;
    RunFrame(s, steps);
    RunKeepsRefunds(s, steps, |s.db.refunds|);
    assert RefundIdentity(t.refunds[i]) == RefundIdentity(s.db.refunds[i]);
    AcceptableReplays(t, i, r);
  }

  lemma AcceptableReplays(t: Tables, i: nat, r: Request)
    requires KeysUnique(t.refunds) && i < |t.refunds| && t.refunds[i].idempotencyKey == Key(r)
    ensures Decide(t, r) == Replay(i) <==> Acceptable(t, r)
    ensures !Decide(t, r).Proceed? && (Decide(t, r).Replay? ==> Decide(t, r) == Replay(i))
  {
    var j := FindKey(t.refunds, Key(r));
    assert j.Some? && !(j.value < i) && !(i < j.value);
  }

  // ----- Records whose key is never sent -----

  /** A record whose command went away between its first commit and the provider call. */
  predicate Unsent(s: State, key: string) {
    && HasKey(s.db.refunds, key) && key !in s.initiated
    && forall c | c in s.commands && s.commands[c].phase.Stored? :: Key(s.commands[c].request) != key
  }

  lemma InsertKeepsUnsent(s: State, c: nat, key: string)
    requires Enabled(s, InsertRefund(c)) && Unsent(s, key)
    ensures Unsent(DoInsertRefund(s, c), key)
  {
    HasKeyStays(s.db.refunds, DoInsertRefund(s, c).db.refunds, key);
    if Key(s.commands[c].request) == key {
      UsedKeyInsertsNothing(s, c, key);
    }
  }

  lemma CallKeepsUnsent(s: State, c: nat, key: string)
    requires Enabled(s, CallProvider(c)) && Unsent(s, key)
    ensures Unsent(DoCallProvider(s, c), key)
  {
  }

  lemma StoreReplyKeepsUnsent(s: State, c: nat, reply: ProviderReply, key: string)
    requires Enabled(s, StoreRefundReply(c, reply)) && Unsent(s, key)
    ensures Unsent(DoStoreReply(s, c, reply), key)
  {
    StoreReplyGrows(s, c, reply);
    HasKeyStays(s.db.refunds, DoStoreReply(s, c, reply).db.refunds, key);
  }

  lemma OthersKeepUnsent(s: State, a: Step, key: string)
    requires Enabled(s, a) && !IsRefundStep(a) && Unsent(s, key)
    ensures Unsent(Next(s, a), key)
  {
    StepFrame(s, a);
    HasKeyStays(s.db.refunds, Next(s, a).db.refunds, key);
    OthersIgnoreCommands(s, a);
  }

  lemma UnsentStays(s: State, a: Step, key: string)
    requires Enabled(s, a) && Unsent(s, key)
    ensures Unsent(Next(s, a), key)
  {
    match a {
      case ReadRefund(_, _) =>
      case InsertRefund(c) => InsertKeepsUnsent(s, c, key);
      case CallProvider(c) => CallKeepsUnsent(s, c, key);
      case StoreRefundReply(c, reply) => StoreReplyKeepsUnsent(s, c, reply, key);
      case CrashRefund(_) =>
      case _ => OthersKeepUnsent(s, a, key);
    }
  }

  lemma UsedKeyInsertsNothing(s: State, c: nat, key: string)
    requires c in s.commands && HasKey(s.db.refunds, key) && Key(s.commands[c].request) == key
    ensures !Insertable(s.db.refunds, RowOf(s.commands[c]))
  {
  }

  /** No later run sends the key: a replay answers with a record the provider never heard of. */
  lemma {:induction false} UnsentForever(s: State, steps: seq<Step>, key: string)
    requires IsRun(s, steps) && Unsent(s, key)
    ensures Unsent(Run(s, steps), key)
    decreases steps
  {
    if steps != [] {
      UnsentStays(s, steps[0], key);
      UnsentForever(Next(s, steps[0]), steps[1..], key);
    }
  }

  lemma {:induction false} SentStays(s: State, steps: seq<Step>, key: string)
    requires IsRun(s, steps) && key in s.initiated
    ensures key in Run(s, steps).initiated
    decreases steps
  {
    if steps != [] {
      SentStays(Next(s, steps[0]), steps[1..], key);
    }
  }

  /** The command reaches its provider call in the run. */
  predicate Calls(steps: seq<Step>, c: nat) {
    CallProvider(c) in steps
  }

  lemma {:induction false} OverNeverCalls(s: State, steps: seq<Step>, c: nat)
    requires IsRun(s, steps) && c in s.commands && s.commands[c].phase.Over?
    ensures !Calls(steps, c)
    decreases steps
  {
    if steps != [] {
      OverStays(s, steps[0], c);
      OverNeverCalls(Next(s, steps[0]), steps[1..], c);
      assert steps == [steps[0]] + steps[1..];
    }
  }

  lemma OverStays(s: State, a: Step, c: nat)
    requires Enabled(s, a) && c in s.commands && s.commands[c].phase.Over?
    ensures a != CallProvider(c) && c in Next(s, a).commands && Next(s, a).commands[c].phase.Over?
  {
    if !IsRefundStep(a) {
      OthersIgnoreCommands(s, a);
    }
  }

  /** A stored command that crashes leaves its record unsent. */
  lemma CrashLeavesUnsent(s: State, c: nat)
    requires RefundInv(s) && c in s.commands && s.commands[c].phase.Stored?
    ensures Unsent(Next(s, CrashRefund(c)), Key(s.commands[c].request))
  {
    OwnKey(s, c);
    var s' := Next(s, CrashRefund(c));
    forall d | d in s'.commands && s'.commands[d].phase.Stored? ensures Key(s'.commands[d].request) != Key(s.commands[c].request) {
      assert d != c;
      OneStoredPerKey(s, c, d);
    }
  }

  lemma OneStoredPerKey(s: State, c: nat, d: nat)
    requires RefundInv(s) && c in s.commands && d in s.commands && c != d
    requires s.commands[c].phase.Stored? && s.commands[d].phase.Stored?
    ensures Key(s.commands[c].request) != Key(s.commands[d].request)
  {
    OwnKey(s, c);
    OwnKey(s, d);
    assert s.commands[c].stored != s.commands[d].stored;
  }

  lemma StoredStays(s: State, a: Step, c: nat)
    requires Enabled(s, a) && c in s.commands && s.commands[c].phase.Stored? && a != CallProvider(c) && a != CrashRefund(c)
    ensures c in Next(s, a).commands && Next(s, a).commands[c] == s.commands[c]
  {
    if !IsRefundStep(a) {
      OthersIgnoreCommands(s, a);
    }
  }

  /** Over any run, the key of a stored record is sent to the provider if and only if the very command that stored it
      gets to its call; a crash before it loses the refund for good. */
  lemma {:induction false} SentIffItsCommandCalls(s: State, steps: seq<Step>, c: nat)
    requires RefundInv(s) && IsRun(s, steps) && c in s.commands && s.commands[c].phase.Stored?
    ensures Key(s.commands[c].request) in Run(s, steps).initiated <==> Calls(steps, c)
    decreases steps
  {
    var key := Key(s.commands[c].request);
    if steps != [] {
      var a, s1 := steps[0], Next(s, steps[0]);
      assert steps == [a] + steps[1..];
      StepKeepsRefunds(s, a);
      if a == CallProvider(c) {
        SentStays(s1, steps[1..], key);
      } else if a == CrashRefund(c) {
        CrashLeavesUnsent(s, c);
        UnsentForever(s1, steps[1..], key);
        OverNeverCalls(s1, steps[1..], c);
      } else {
        StoredStays(s, a, c);
        SentIffItsCommandCalls(s1, steps[1..], c);
      }
    }
  }

  /** How it gets there: a command that creates a record and crashes before its call. After any later run its key has a
      record that commands replay, and the provider has never been called with it. */
  lemma CrashLosesRefund(s: State, c: nat, r: Request)
    requires RefundInv(s) && Enabled(s, ReadRefund(c, r)) && MayProceed(s.db, r) && RecordFits(s.db, r)
    ensures IsRun(s, [ReadRefund(c, r), InsertRefund(c), CrashRefund(c)])
    ensures Unsent(Run(s, [ReadRefund(c, r), InsertRefund(c), CrashRefund(c)]), Key(r))
  {
    ProceedsIff(s.db, r);
    var s1 := Next(s, ReadRefund(c, r));
    var s2 := Next(s1, InsertRefund(c));
    StepKeepsRefunds(s, ReadRefund(c, r));
    StepKeepsRefunds(s1, InsertRefund(c));
    RunOne(s2, CrashRefund(c));
    RunFirst(s1, InsertRefund(c), [CrashRefund(c)]);
    RunFirst(s, ReadRefund(c, r), [InsertRefund(c), CrashRefund(c)]);
    CrashLeavesUnsent(s2, c);
  }

  // ----- Completed refunds are the posted ones -----

  predicate PostsToAccount(t: Tables, r: Refund) {
    r.transactionId in t.transactions && t.transactions[r.transactionId].account.Some?
  }

  /** completed_at is set exactly on the refunds whose debit is in the ledger (parents without account excepted). */
  predicate CompletedIffPosted(t: Tables) {
    forall i | 0 <= i < |t.refunds| && PostsToAccount(t, t.refunds[i]) ::
      t.refunds[i].completedAt.Some? <==> HasEntry(t.ledger, KoraRefund(t.refunds[i].refundReference))
  }

  predicate ParentsExist(t: Tables) {
    forall i | 0 <= i < |t.refunds| :: t.refunds[i].transactionId in t.transactions
  }

  lemma AppendHasEntry(l: seq<LedgerEntry>, e: LedgerEntry, r: Reference)
    ensures HasEntry(l + [e], r) <==> HasEntry(l, r) || e.reference == r
  {
    var l' := l + [e];
    if HasEntry(l, r) {
      var i :| 0 <= i < |l| && l[i].reference == r;
      assert l'[i].reference == r;
    }
    assert l'[|l|] == e;
  }

  /** Steps that neither post a Kora entry nor write completed_at. */
  lemma QuietStepKeepsCompletion(t: Tables, t': Tables)
    requires CompletedIffPosted(t) && ParentsExist(t)
    requires PaymentsExtend(t.transactions, t'.transactions)
    requires |t'.refunds| == |t.refunds| && RefundsExtend(t.refunds, t'.refunds)
    requires forall i | 0 <= i < |t.refunds| :: t'.refunds[i].completedAt == t.refunds[i].completedAt
    requires forall r: string :: HasEntry(t'.ledger, KoraRefund(r)) <==> HasEntry(t.ledger, KoraRefund(r))
    ensures CompletedIffPosted(t') && ParentsExist(t')
  {
    forall i | 0 <= i < |t'.refunds| ensures t'.refunds[i].transactionId in t'.transactions
      && (PostsToAccount(t', t'.refunds[i]) ==>
          (t'.refunds[i].completedAt.Some? <==> HasEntry(t'.ledger, KoraRefund(t'.refunds[i].refundReference))))
    {
      assert RefundIdentity(t'.refunds[i]) == RefundIdentity(t.refunds[i]);
      var id := t.refunds[i].transactionId;
      assert PaymentIdentity(t'.transactions[id]) == PaymentIdentity(t.transactions[id]);
    }
  }

  lemma PaymentEventKeepsCompletion(t: Tables, payout: bool, data: KoraData, outcome: Outcome, now: Time, uuid: nat)
    requires CompletedIffPosted(t) && ParentsExist(t)
    requires PaymentEvent(t, payout, data, outcome, now, uuid).Success?
    ensures var t' := PaymentEvent(t, payout, data, outcome, now, uuid).value; CompletedIffPosted(t') && ParentsExist(t')
  {
    var t' := PaymentEvent(t, payout, data, outcome, now, uuid).value;
    PaymentEventFrame(t, payout, data, outcome, now, uuid);
    PaymentEventPostsPayouts(t, payout, data, outcome, now, uuid);
    QuietStepKeepsCompletion(t, t');
  }

  lemma PaymentEventPostsPayouts(t: Tables, payout: bool, data: KoraData, outcome: Outcome, now: Time, uuid: nat)
    requires PaymentEvent(t, payout, data, outcome, now, uuid).Success?
    ensures var t' := PaymentEvent(t, payout, data, outcome, now, uuid).value;
            && t'.refunds == t.refunds
            && forall r: string :: HasEntry(t'.ledger, KoraRefund(r)) <==> HasEntry(t.ledger, KoraRefund(r))
  {
    var t' := PaymentEvent(t, payout, data, outcome, now, uuid).value;
    if t'.ledger != t.ledger {
      var found := FindTransaction(t.transactions, EventReference(data));
      var txn := t.transactions[found.id];
      var e := PayoutEntry(uuid, txn.account.value, txn, EventReference(data), now);
      assert t'.ledger == t.ledger + [e];
      forall r: string ensures HasEntry(t'.ledger, KoraRefund(r)) <==> HasEntry(t.ledger, KoraRefund(r)) {
        AppendHasEntry(t.ledger, e, KoraRefund(r));
      }
    }
  }

  /** Completing refund i together with its posting keeps the two tables in step. */
  lemma CompletionKeeps(t: Tables, t': Tables, i: nat)
    requires CompletedIffPosted(t) && ParentsExist(t) && RefundReferencesUnique(t.refunds) && i < |t.refunds|
    requires t'.transactions.Keys == t.transactions.Keys && PaymentsExtend(t.transactions, t'.transactions)
    requires |t'.refunds| == |t.refunds| && RefundsExtend(t.refunds, t'.refunds) && t'.refunds[i].completedAt.Some?
    requires forall j | 0 <= j < |t.refunds| && j != i :: t'.refunds[j] == t.refunds[j]
    requires PostsToAccount(t, t.refunds[i]) ==> HasEntry(t'.ledger, KoraRefund(t.refunds[i].refundReference))
    requires forall r: string | r != t.refunds[i].refundReference :: HasEntry(t'.ledger, KoraRefund(r)) <==> HasEntry(t.ledger, KoraRefund(r))
    ensures CompletedIffPosted(t') && ParentsExist(t')
  {
    forall j | 0 <= j < |t'.refunds| ensures t'.refunds[j].transactionId in t'.transactions
      && (PostsToAccount(t', t'.refunds[j]) ==>
          (t'.refunds[j].completedAt.Some? <==> HasEntry(t'.ledger, KoraRefund(t'.refunds[j].refundReference))))
    {
      assert RefundIdentity(t'.refunds[j]) == RefundIdentity(t.refunds[j]);
      var p := t.refunds[j].transactionId;
      assert PaymentIdentity(t'.transactions[p]) == PaymentIdentity(t.transactions[p]);
    }
  }

  lemma RefundEventKeepsCompletion(t: Tables, data: KoraData, outcome: Outcome, now: Time, uuid: nat)
    requires CompletedIffPosted(t) && ParentsExist(t) && RefundReferencesUnique(t.refunds)
    requires RefundEvent(t, data, outcome, now, uuid).Success?
    ensures var t' := RefundEvent(t, data, outcome, now, uuid).value; CompletedIffPosted(t') && ParentsExist(t')
  {
    var t' := RefundEvent(t, data, outcome, now, uuid).value;
    RefundEventFrame(t, data, outcome, now, uuid);
    var i := LatestRefund(t.refunds, data.reference, data.paymentReference).value;
    if outcome.Succeeded? {
      var refund := t.refunds[i];
      if t'.ledger != t.ledger {
        var e := RefundEntry(uuid, t.transactions[refund.transactionId].account.value, refund, now);
        assert t'.ledger == t.ledger + [e];
        forall r: string ensures HasEntry(t'.ledger, KoraRefund(r)) <==> HasEntry(t.ledger, KoraRefund(r)) || r == refund.refundReference {
          AppendHasEntry(t.ledger, e, KoraRefund(r));
        }
      }
      CompletionKeeps(t, t', i);
    } else {
      QuietStepKeepsCompletion(t, t');
    }
  }

  /** A posted refund reference belongs to a record. */
  lemma PostedRefundExists(t: Tables, reference: string)
    requires LedgerInv(t) && HasEntry(t.ledger, KoraRefund(reference))
    ensures exists i | 0 <= i < |t.refunds| :: t.refunds[i].refundReference == reference
  {
    var i :| 0 <= i < |t.ledger| && t.ledger[i].reference == KoraRefund(reference);
    var p := PostingOf(t.ledger[i]);
    assert p in KoraPostings(t.ledger) && Backed(t, p);
    var j :| RefundBacked(t, p, j, reference);
  }

  lemma InsertKeepsCompletion(s: State, c: nat)
    requires RefundInv(s) && LedgerInv(s.db) && CompletedIffPosted(s.db) && ParentsExist(s.db) && Enabled(s, InsertRefund(c))
    ensures CompletedIffPosted(DoInsertRefund(s, c).db) && ParentsExist(DoInsertRefund(s, c).db)
  {
    var row := RowOf(s.commands[c]);
    if HasEntry(s.db.ledger, KoraRefund(row.refundReference)) {
      PostedRefundExists(s.db, row.refundReference);
    }
  }

  lemma ApplyKeepsCompletion(s: State, d: nat, uuid: nat, commits: bool)
    requires LedgerInv(s.db) && CompletedIffPosted(s.db) && ParentsExist(s.db) && Enabled(s, Apply(d, uuid, commits))
    ensures CompletedIffPosted(DoApply(s, d, uuid, commits).db) && ParentsExist(DoApply(s, d, uuid, commits).db)
  {
    var e := s.deliveries[d].event;
    if Effect(s, d, uuid, commits).Some? {
      if IsRefundEvent(e.kind) {
        RefundEventKeepsCompletion(s.db, e.data, WebhookOutcome(e.data.status), s.clock, uuid);
      } else {
        PaymentEventKeepsCompletion(s.db, IsPayoutEvent(e.kind), e.data, WebhookOutcome(e.data.status), s.clock, uuid);
      }
    }
  }

  lemma SimulateKeepsCompletion(s: State, id: nat, txn: Transaction, uuid: nat)
    requires CompletedIffPosted(s.db) && ParentsExist(s.db) && Enabled(s, Simulate(id, txn, uuid))
    ensures CompletedIffPosted(Next(s, Simulate(id, txn, uuid)).db) && ParentsExist(Next(s, Simulate(id, txn, uuid)).db)
  {
    var e := IntentEntry(id, txn, uuid, s.clock);
    forall r: string ensures HasEntry(s.db.ledger + [e], KoraRefund(r)) <==> HasEntry(s.db.ledger, KoraRefund(r)) {
      AppendHasEntry(s.db.ledger, e, KoraRefund(r));
    }
    QuietStepKeepsCompletion(s.db, Next(s, Simulate(id, txn, uuid)).db);
  }

  lemma QuietSteps(s: State, a: Step)
    requires Enabled(s, a) && !a.Apply? && !a.Simulate? && !a.InsertRefund?
    ensures var t, t' := s.db, Next(s, a).db;
            && t'.ledger == t.ledger && |t'.refunds| == |t.refunds|
            && forall i | 0 <= i < |t.refunds| :: t'.refunds[i].completedAt == t.refunds[i].completedAt
  {
  }

  /** The refund table and the ledger agree on which refunds have gone out, in every reachable state. */
  lemma StepKeepsCompletion(s: State, a: Step)
    requires RefundInv(s) && LedgerInv(s.db) && CompletedIffPosted(s.db) && ParentsExist(s.db) && Enabled(s, a)
    ensures CompletedIffPosted(Next(s, a).db) && ParentsExist(Next(s, a).db)
  {
    match a {
      case Apply(d, uuid, commits) => ApplyKeepsCompletion(s, d, uuid, commits);
      case Simulate(id, txn, uuid) => SimulateKeepsCompletion(s, id, txn, uuid);
      case InsertRefund(c) => InsertKeepsCompletion(s, c);
      case _ =>
        StepFrame(s, a);
        QuietSteps(s, a);
        QuietStepKeepsCompletion(s.db, Next(s, a).db);
    }
  }
}
