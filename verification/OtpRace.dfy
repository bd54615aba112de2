/** Why the attempt limit of one challenge needs serialised verifications. The handler reads the attempts, then writes
    what it read plus one (api_gateway/auth.py:288-294, 408-414), and the row is not locked: here the two halves are
    separate steps, with any number of verifications between them. Every code compared is a wrong one. */
module OtpRace {
  import opened Wrappers
  import opened KoraTables
  import OtpChallenges

  /** The stored attempts, the attempts each verification in flight has read, and the wrong codes compared so far. */
  datatype State = State(attempts: nat, reading: map<nat, nat>, evaluated: nat)

  datatype Step = Read(v: nat) | Write(v: nat) | Abort(v: nat)

  predicate Enabled(s: State, a: Step) {
    match a
    case Read(v) => v !in s.reading
    case Write(v) => v in s.reading
    case Abort(v) => v in s.reading
  }

  function Next(s: State, a: Step, most: nat): State
    requires Enabled(s, a)
  {
    match a
    case Read(v) => if s.attempts >= most then s else s.(reading := s.reading[v := s.attempts])
    case Write(v) => State(s.reading[v] + 1, s.reading - {v}, s.evaluated + 1)
    case Abort(v) => s.(reading := s.reading - {v})
  }

  predicate IsRun(s: State, steps: seq<Step>, most: nat)
    decreases steps
  {
    steps == [] || (Enabled(s, steps[0]) && IsRun(Next(s, steps[0], most), steps[1..], most))
  }

  function Run(s: State, steps: seq<Step>, most: nat): State
    requires IsRun(s, steps, most)
    decreases steps
  {
    if steps == [] then s else Run(Next(s, steps[0], most), steps[1..], most)
  }

  /** Read and write with nothing between them are the handler's verdict on a wrong code: the attempts it stores and one
      code compared. */
  lemma UndisturbedVerificationIsJudged(cs: seq<OtpChallenges.Challenge>, g: OtpChallenges.Settings, code: string, now: Time, v: nat, evaluated: nat)
    requires OtpChallenges.Judge(cs, g, code, true, true, now).WrongCode?
    ensures var i := OtpChallenges.Judge(cs, g, code, true, true, now).index;
            var s := State(cs[i].attempts, map[], evaluated);
            var stored := OtpChallenges.Judged(cs, OtpChallenges.WrongCode(i), now)[i].attempts;
            && IsRun(s, [Read(v), Write(v)], g.maxAttempts)
            && Run(s, [Read(v), Write(v)], g.maxAttempts) == State(stored, map[], evaluated + 1)
  {
    var i := OtpChallenges.Judge(cs, g, code, true, true, now).index;
    var s := State(cs[i].attempts, map[], evaluated);
    var s1 := Next(s, Read(v), g.maxAttempts);
    var s2 := Next(s1, Write(v), g.maxAttempts);
    assert [Read(v), Write(v)][1..] == [Write(v)] && [Write(v)][1..] == [];
    assert s2.reading == map[];
    assert IsRun(s2, [], g.maxAttempts) && Run(s2, [], g.maxAttempts) == s2;
    assert Run(s1, [Write(v)], g.maxAttempts) == s2;
  }

  /** Once the attempts are used up the read ends the verification, as the handler does, whatever the code. */
  lemma ExhaustedReadsNothing(cs: seq<OtpChallenges.Challenge>, g: OtpChallenges.Settings, code: string, now: Time, v: nat, evaluated: nat)
    requires OtpChallenges.Current(cs).Some? && cs[OtpChallenges.Current(cs).value].expiresAt > now
    ensures var s := State(cs[OtpChallenges.Current(cs).value].attempts, map[], evaluated);
            OtpChallenges.Judge(cs, g, code, true, true, now).Exhausted? <==> Next(s, Read(v), g.maxAttempts) == s
  {
    var s := State(cs[OtpChallenges.Current(cs).value].attempts, map[], evaluated);
    if s.attempts < g.maxAttempts {
      assert v in Next(s, Read(v), g.maxAttempts).reading;
    }
  }

  /** Every write of the run finds the attempts its verification has read. */
  predicate WritesAreCurrent(s: State, steps: seq<Step>, most: nat)
    requires IsRun(s, steps, most)
    decreases steps
  {
    steps != [] ==>
      && (steps[0].Write? ==> s.reading[steps[0].v] == s.attempts)
      && WritesAreCurrent(Next(s, steps[0], most), steps[1..], most)
  }

  /** Every wrong code was counted. */
  predicate Exact(s: State, most: nat) {
    && s.attempts == s.evaluated <= most
    && forall v | v in s.reading :: s.reading[v] <= s.attempts && s.reading[v] < most
  }

  /** Some wrong code was not counted, and no pending write can make up for it. */
  predicate Short(s: State) {
    s.attempts < s.evaluated && forall v | v in s.reading :: s.reading[v] < s.evaluated
  }

  lemma StepFromExact(s: State, a: Step, most: nat)
    requires Exact(s, most) && Enabled(s, a)
    ensures if a.Write? && s.reading[a.v] != s.attempts then Short(Next(s, a, most)) else Exact(Next(s, a, most), most)
  {
  }

  lemma {:induction false} ShortForGood(s: State, steps: seq<Step>, most: nat)
    requires Short(s) && IsRun(s, steps, most)
    ensures Short(Run(s, steps, most))
    decreases steps
  {
    if steps != [] {
      ShortForGood(Next(s, steps[0], most), steps[1..], most);
    }
  }

  /** The attempts count the wrong codes if and only if no write was overtaken by another; then the limit holds, and
      otherwise the count stays short for good. */
  lemma {:induction false} AttemptsCountWrongCodesIff(s: State, steps: seq<Step>, most: nat)
    requires Exact(s, most) && IsRun(s, steps, most)
    ensures var s' := Run(s, steps, most);
            && (s'.attempts == s'.evaluated <==> WritesAreCurrent(s, steps, most))
            && (WritesAreCurrent(s, steps, most) ==> s'.evaluated <= most)
            && (!WritesAreCurrent(s, steps, most) ==> s'.attempts < s'.evaluated)
    decreases steps
  {
    if steps != [] {
      StepFromExact(s, steps[0], most);
      var s1 := Next(s, steps[0], most);
      if Exact(s1, most) {
        AttemptsCountWrongCodesIff(s1, steps[1..], most);
      } else {
        ShortForGood(s1, steps[1..], most);
      }
    }
  }

  /** Verifications that do not overlap: each one writes or gives up before the next one reads. */
  predicate Serialised(s: State, steps: seq<Step>, most: nat)
    requires IsRun(s, steps, most)
    decreases steps
  {
    steps != [] ==>
      && (steps[0].Read? ==> s.reading == map[])
      && Serialised(Next(s, steps[0], most), steps[1..], most)
  }

  /** Verifications one after the other keep every write current, so the limit holds on the wrong codes themselves. */
  lemma {:induction false} SerialisedRunsAreCurrent(s: State, steps: seq<Step>, most: nat)
    requires IsRun(s, steps, most) && Serialised(s, steps, most)
    requires |s.reading| <= 1 && forall v | v in s.reading :: s.reading[v] == s.attempts
    ensures WritesAreCurrent(s, steps, most)
    decreases steps
  {
    if steps != [] {
      var s1 := Next(s, steps[0], most);
      assert steps[0].Read? ==> s1.reading.Keys <= {steps[0].v};
      if !steps[0].Read? {
        assert s1.reading.Keys == s.reading.Keys - {steps[0].v};
        assert |s1.reading.Keys| == |s.reading.Keys| - 1;
      } else if s1.reading != map[] {
        assert s1.reading.Keys == {steps[0].v};
      }
      SerialisedRunsAreCurrent(s1, steps[1..], most);
    }
  }

  /** Two overlapping verifications compare two wrong codes and count one: a limit of one lets two through. */
  lemma OverlapLosesAnAttempt(most: nat)
    requires most >= 1
    ensures var s, steps := State(0, map[], 0), [Read(0), Read(1), Write(0), Write(1)];
            && IsRun(s, steps, most) && !WritesAreCurrent(s, steps, most)
            && Run(s, steps, most).attempts == 1 && Run(s, steps, most).evaluated == 2
  {
    var s, steps := State(0, map[], 0), [Read(0), Read(1), Write(0), Write(1)];
    var s2 := Next(Next(s, Read(0), most), Read(1), most);
    assert s2.reading == map[0 := 0, 1 := 0];
    assert steps[1..] == [Read(1), Write(0), Write(1)];
    assert steps[1..][1..] == [Write(0), Write(1)];
    assert steps[1..][1..][1..] == [Write(1)];
    assert steps[1..][1..][1..][1..] == [];
    assert WritesAreCurrent(s2, [Write(0), Write(1)], most) ==> WritesAreCurrent(Next(s2, Write(0), most), [Write(1)], most);
  }
}
