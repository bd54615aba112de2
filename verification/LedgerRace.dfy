/** Why the one-entry-per-reference law needs serialised handlers. The handler selects, then inserts, and the index
    over (reference_type, reference_id) is not unique (payment_hub/models.py:190): here the two halves are
    separate steps, with any number of handlers between them. */
module LedgerRace {
  import opened Wrappers
  import opened KoraTables
  import KoraWebhooks

  /** The references posted so far, and the handlers that found theirs absent and have not inserted yet. */
  datatype State = State(posted: seq<Reference>, writing: map<nat, Reference>)

  datatype Step = Select(h: nat, reference: Reference) | Insert(h: nat) | Abort(h: nat)

  predicate Enabled(s: State, a: Step) {
    match a
    case Select(h, _) => h !in s.writing
    case Insert(h) => h in s.writing
    case Abort(h) => h in s.writing
  }

  function Next(s: State, a: Step): State
    requires Enabled(s, a)
  {
    match a
    case Select(h, reference) =>
      if reference in s.posted then s else s.(writing := s.writing[h := reference])
    case Insert(h) => State(s.posted + [s.writing[h]], s.writing - {h})
    case Abort(h) => s.(writing := s.writing - {h})
  }

  predicate IsRun(s: State, steps: seq<Step>)
    decreases steps
  {
    steps == [] || (Enabled(s, steps[0]) && IsRun(Next(s, steps[0]), steps[1..]))
  }

  function Run(s: State, steps: seq<Step>): State
    requires IsRun(s, steps)
    decreases steps
  {
    if steps == [] then s else Run(Next(s, steps[0]), steps[1..])
  }

  predicate Unique(posted: seq<Reference>) {
    forall i, j | 0 <= i < j < |posted| :: posted[i] != posted[j]
  }

  // ----- The two halves and the handler -----

  function ReferencesOf(ledger: seq<LedgerEntry>): seq<Reference> {
    seq(|ledger|, i requires 0 <= i < |ledger| => ledger[i].reference)
  }

  /** What an undisturbed handler does: it selects, and inserts if it found nothing. */
  function HandlerSteps(s: State, h: nat, reference: Reference): seq<Step> {
    if reference in s.posted then [Select(h, reference)] else [Select(h, reference), Insert(h)]
  }

  /** Select and insert with nothing between them are the handler's posting: the same references afterwards, and
      nothing posted when the select raises. */
  lemma UndisturbedHandlerIsPostOnce(t: Tables, e: LedgerEntry, h: nat)
    ensures var s := State(ReferencesOf(t.ledger), map[]);
            var steps := HandlerSteps(s, h, e.reference);
            && IsRun(s, steps)
            && Run(s, steps) == match KoraWebhooks.PostOnce(t, e)
                                case Success(t') => State(ReferencesOf(t'.ledger), map[])
                                case Failure(_) => s
  {
    var s := State(ReferencesOf(t.ledger), map[]);
    var select, insert := Select(h, e.reference), Insert(h);
    assert [select][1..] == [] && [select, insert][1..] == [insert] && [insert][1..] == [];
    assert HasEntry(t.ledger, e.reference) <==> e.reference in s.posted by {
      if HasEntry(t.ledger, e.reference) {
        var i :| 0 <= i < |t.ledger| && t.ledger[i].reference == e.reference;
        assert s.posted[i] == e.reference;
      }
    }
    if e.reference !in s.posted {
      var s1 := Next(s, select);
      var s2 := Next(s1, insert);
      assert s2.writing == map[];
      assert s2.posted == ReferencesOf(t.ledger + [e]);
      assert IsRun(s2, []) && IsRun(s1, [insert]) && Run(s1, [insert]) == s2;
    }
  }

  /** No handler selects a reference that another one is about to insert. */
  predicate Serialised(s: State, steps: seq<Step>)
    requires IsRun(s, steps)
    decreases steps
  {
    steps != [] ==>
      && (steps[0].Select? ==> forall h | h in s.writing :: s.writing[h] != steps[0].reference)
      && Serialised(Next(s, steps[0]), steps[1..])
  }

  /** Pending references are new and pairwise different. */
  predicate Inv(s: State) {
    && Unique(s.posted)
    && (forall h | h in s.writing :: s.writing[h] !in s.posted)
    && (forall h, g | h in s.writing && g in s.writing && s.writing[h] == s.writing[g] :: h == g)
  }

  lemma StepKeepsInv(s: State, a: Step)
    requires Inv(s) && Enabled(s, a)
    requires a.Select? ==> forall h | h in s.writing :: s.writing[h] != a.reference
    ensures Inv(Next(s, a))
  {
    if a.Insert? {
      var posted' := s.posted + [s.writing[a.h]];
      forall h | h in s.writing && h != a.h ensures s.writing[h] !in posted' {
      }
    }
  }

  /** Serialised per reference, every run posts each reference at most once. */
  lemma {:induction false} SerialisedRunsPostOnce(s: State, steps: seq<Step>)
    requires Inv(s) && IsRun(s, steps) && Serialised(s, steps)
    ensures Inv(Run(s, steps))
    decreases steps
  {
    if steps != [] {
      StepKeepsInv(s, steps[0]);
      SerialisedRunsPostOnce(Next(s, steps[0]), steps[1..]);
    }
  }

  /** An insert breaks uniqueness exactly when its reference was posted since its select. */
  lemma InsertKeepsUniqueIff(s: State, h: nat)
    requires Unique(s.posted) && h in s.writing
    ensures Unique(Next(s, Insert(h)).posted) <==> s.writing[h] !in s.posted
  {
    var posted' := s.posted + [s.writing[h]];
    assert posted'[|s.posted|] == s.writing[h];
    if i :| 0 <= i < |s.posted| && s.posted[i] == s.writing[h] {
      assert posted'[i] == s.posted[i];
    }
  }

  /** Every insert of the run finds its reference unposted. */
  predicate EveryInsertIsNew(s: State, steps: seq<Step>)
    requires IsRun(s, steps)
    decreases steps
  {
    steps != [] ==>
      && (steps[0].Insert? ==> s.writing[steps[0].h] !in s.posted)
      && EveryInsertIsNew(Next(s, steps[0]), steps[1..])
  }

  lemma {:induction false} DuplicateStays(s: State, steps: seq<Step>)
    requires !Unique(s.posted) && IsRun(s, steps)
    ensures !Unique(Run(s, steps).posted)
    decreases steps
  {
    if steps != [] {
      assert s.posted <= Next(s, steps[0]).posted;
      DuplicateStays(Next(s, steps[0]), steps[1..]);
    }
  }

  /** Over any run, whatever overlaps: each reference is posted at most once if and only if every insert found its
      reference still unposted. */
  lemma {:induction false} RunPostsOnceIff(s: State, steps: seq<Step>)
    requires Unique(s.posted) && IsRun(s, steps)
    ensures Unique(Run(s, steps).posted) <==> EveryInsertIsNew(s, steps)
    decreases steps
  {
    if steps != [] {
      var s1 := Next(s, steps[0]);
      if steps[0].Insert? {
        InsertKeepsUniqueIff(s, steps[0].h);
      }
      if Unique(s1.posted) {
        RunPostsOnceIff(s1, steps[1..]);
      } else {
        DuplicateStays(s1, steps[1..]);
      }
    }
  }

  /** Whenever two handlers may insert one reference, both inserts post it: the law fails without serialisation. */
  lemma OverlapPostsTwice(s: State, h: nat, g: nat)
    requires h in s.writing && g in s.writing && h != g && s.writing[h] == s.writing[g]
    ensures IsRun(s, [Insert(h), Insert(g)]) && !Unique(Run(s, [Insert(h), Insert(g)]).posted)
  {
    var s1 := Next(s, Insert(h));
    var s2 := Next(s1, Insert(g));
    assert [Insert(h), Insert(g)][1..] == [Insert(g)];
    assert [Insert(g)][1..] == [];
    assert IsRun(s2, []) && Run(s2, []) == s2;
    assert s2.posted[|s.posted|] == s2.posted[|s.posted| + 1];
  }

  /** Such an overlap needs only two deliveries of one reference, the second selecting before the first inserts. */
  lemma OverlapIsReachable(reference: Reference)
    ensures var steps := [Select(0, reference), Select(1, reference), Insert(0), Insert(1)];
            IsRun(State([], map[]), steps) && !Unique(Run(State([], map[]), steps).posted)
  {
    var s := State([], map[]);
    var steps := [Select(0, reference), Select(1, reference), Insert(0), Insert(1)];
    var s1 := Next(s, steps[0]);
    var s2 := Next(s1, steps[1]);
    OverlapPostsTwice(s2, 0, 1);
    assert steps[1..] == [Select(1, reference), Insert(0), Insert(1)];
    assert steps[1..][1..] == [Insert(0), Insert(1)];
  }
}
