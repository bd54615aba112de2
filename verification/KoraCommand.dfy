/** api_gateway/main.py:1595-1713, one refund command from receipt to answer, and its place in the step system. */
module KoraCommand {
  import opened Wrappers
  import opened KoraTables
  import opened KoraRefunds
  import opened KoraSystem

  /** The steps an undisturbed command takes. */
  function CommandSteps(t: Tables, c: nat, r: Request, reply: ProviderReply): seq<Step> {
    if !Decide(t, r).Proceed? then [ReadRefund(c, r)]
    else if !RecordFits(t, r) then [ReadRefund(c, r), InsertRefund(c)]
    else [ReadRefund(c, r), InsertRefund(c), CallProvider(c), StoreRefundReply(c, reply)]
  }

  /** The states between the commits of a command that creates a record. */
  lemma RecordSteps(s: State, c: nat, r: Request, reply: ProviderReply)
    requires Enabled(s, ReadRefund(c, r)) && Decide(s.db, r).Proceed? && RecordFits(s.db, r)
    ensures var k := Command(r, s.db.transactions[r.pathTransaction], Decide(s.db, r).amount, None, Reading);
            var n := |s.db.refunds|;
            var s1 := s.(commands := s.commands[c := k]);
            var s2 := s.(db := s.db.(refunds := s.db.refunds + [RowOf(k)]), commands := s.commands[c := k.(stored := Some(n), phase := Stored)]);
            && Next(s, ReadRefund(c, r)) == s1
            && Enabled(s1, InsertRefund(c)) && Next(s1, InsertRefund(c)) == s2
            && Enabled(s2, CallProvider(c))
            && var s3 := Next(s2, CallProvider(c));
               && s3.db == s2.db && s3.initiated == s.initiated + [Key(r)] && s3.commands[c].stored == Some(n)
               && Enabled(s3, StoreRefundReply(c, reply))
  {
    ProceedsIff(s.db, r);
  }

  lemma RecordIsRun(s: State, c: nat, r: Request, reply: ProviderReply)
    requires Enabled(s, ReadRefund(c, r)) && Decide(s.db, r).Proceed? && RecordFits(s.db, r)
    ensures var steps := [ReadRefund(c, r), InsertRefund(c), CallProvider(c), StoreRefundReply(c, reply)];
            && IsRun(s, steps) && Run(s, steps).db == Commanded(s.db, r, reply).1
            && Run(s, steps).initiated == s.initiated + [Key(r)]
  {
    ProceedsIff(s.db, r);
    RecordSteps(s, c, r, reply);
    var s1 := Next(s, ReadRefund(c, r));
    var s2 := Next(s1, InsertRefund(c));
    var s3 := Next(s2, CallProvider(c));
    RunOne(s3, StoreRefundReply(c, reply));
    RunFirst(s2, CallProvider(c), [StoreRefundReply(c, reply)]);
    RunFirst(s1, InsertRefund(c), [CallProvider(c), StoreRefundReply(c, reply)]);
    RunFirst(s, ReadRefund(c, r), [InsertRefund(c), CallProvider(c), StoreRefundReply(c, reply)]);
    LastReplaced(s.db.refunds, RowOf(s1.commands[c]), StoreReply(RowOf(s1.commands[c]), reply));
  }

  lemma LastReplaced(refunds: seq<Refund>, x: Refund, y: Refund)
    ensures (refunds + [x])[|refunds| := y] == refunds + [y] && (refunds + [x])[|refunds|] == x
  {
  }

  lemma RefusalIsRun(s: State, c: nat, r: Request, reply: ProviderReply)
    requires Enabled(s, ReadRefund(c, r)) && !(Decide(s.db, r).Proceed? && RecordFits(s.db, r))
    ensures var steps := CommandSteps(s.db, c, r, reply);
            IsRun(s, steps) && Run(s, steps).db == s.db == Commanded(s.db, r, reply).1 && Run(s, steps).initiated == s.initiated
  {
    ProceedsIff(s.db, r);
    RunOne(s, ReadRefund(c, r));
    if Decide(s.db, r).Proceed? {
      RunOne(Next(s, ReadRefund(c, r)), InsertRefund(c));
      RunFirst(s, ReadRefund(c, r), [InsertRefund(c)]);
    }
  }

  /** The handler and the step system agree: an undisturbed command is a run with the same tables at its end, and it
      calls the provider exactly when it creates a record. */
  lemma CommandIsRun(s: State, c: nat, r: Request, reply: ProviderReply)
    requires Enabled(s, ReadRefund(c, r))
    ensures var steps := CommandSteps(s.db, c, r, reply);
            && IsRun(s, steps) && Run(s, steps).db == Commanded(s.db, r, reply).1
            && Run(s, steps).initiated ==
                 s.initiated + (if MayProceed(s.db, r) && RecordFits(s.db, r) then [Key(r)] else [])
  {
    ProceedsIff(s.db, r);
    if Decide(s.db, r).Proceed? && RecordFits(s.db, r) {
      RecordIsRun(s, c, r, reply);
    } else {
      RefusalIsRun(s, c, r, reply);
    }
  }
}
