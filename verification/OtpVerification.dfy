/** When a one-time code verifies: the exact condition on the challenges, what each verdict writes, and how long the code
    of a fresh challenge stays good. */
module OtpVerification {
  import opened Wrappers
  import opened KoraTables
  import opened OtpChallenges

  /** The challenge a verification looks at: not consumed, and every later one is. */
  predicate NewestOpen(cs: seq<Challenge>, i: int) {
    0 <= i < |cs| && cs[i].consumedAt == None && forall j | i < j < |cs| :: cs[j].consumedAt != None
  }

  lemma CurrentMeaning(cs: seq<Challenge>)
    ensures forall i: nat :: Current(cs) == Some(i) <==> NewestOpen(cs, i)
    ensures Current(cs) == None <==> forall i | 0 <= i < |cs| :: cs[i].consumedAt != None
  {
    forall i: nat | NewestOpen(cs, i) ensures Current(cs) == Some(i) {
      var r := Current(cs);
      assert r.Some? && !(r.value < i) && !(i < r.value);
    }
  }

  // ----- The verdicts -----

  /** The challenge can still be used at an instant. */
  predicate Usable(cs: seq<Challenge>, i: int, most: nat, now: Time) {
    NewestOpen(cs, i) && now < cs[i].expiresAt && cs[i].attempts < most
  }

  /** A verification succeeds if and only if the newest open challenge is unexpired, has attempts left and carries the
      code, with consents given and the account active. */
  lemma VerifiesIff(cs: seq<Challenge>, g: Settings, code: string, consents: bool, active: bool, now: Time)
    ensures Judge(cs, g, code, consents, active, now).Verified? <==>
              consents && active && exists i: nat | Usable(cs, i, g.maxAttempts, now) :: cs[i].code == code
    ensures forall i: nat :: Judge(cs, g, code, consents, active, now) == Verified(i) <==>
              consents && active && Usable(cs, i, g.maxAttempts, now) && cs[i].code == code
  {
    CurrentMeaning(cs);
  }

  /** Every other verdict: no open challenge or an expired one; one without attempts left; another code; a missing consent;
      a disabled account. */
  lemma OtherVerdictsIff(cs: seq<Challenge>, g: Settings, code: string, consents: bool, active: bool, now: Time)
    ensures var v := Judge(cs, g, code, consents, active, now);
            && (v.Unavailable? <==> forall i: nat | NewestOpen(cs, i) :: cs[i].expiresAt <= now)
            && (v.Exhausted? <==> exists i: nat | NewestOpen(cs, i) :: now < cs[i].expiresAt && cs[i].attempts >= g.maxAttempts)
            && (forall i: nat :: v == WrongCode(i) <==> Usable(cs, i, g.maxAttempts, now) && cs[i].code != code)
            && (forall i: nat :: v == Declined(i) <==> Usable(cs, i, g.maxAttempts, now) && cs[i].code == code && !consents)
            && (forall i: nat :: v == Disabled(i) <==>
                  Usable(cs, i, g.maxAttempts, now) && cs[i].code == code && consents && !active)
  {
    CurrentMeaning(cs);
    var r := Current(cs);
    if r.Some? {
      assert NewestOpen(cs, r.value);
    }
  }

  /** What a verdict writes: one more attempt on the challenge it names, which a success consumes besides; a disabled
      account and a challenge that cannot be used leave everything. */
  lemma VerdictWrites(cs: seq<Challenge>, g: Settings, code: string, consents: bool, active: bool, now: Time)
    ensures var v := Judge(cs, g, code, consents, active, now);
            var cs' := Judged(cs, v, now);
            && (v.Unavailable? || v.Exhausted? || v.Disabled? ==> cs' == cs)
            && (v.WrongCode? || v.Declined? || v.Verified? ==>
                  && v.index < |cs| && |cs'| == |cs|
                  && (forall j | 0 <= j < |cs| && j != v.index :: cs'[j] == cs[j])
                  && cs'[v.index] == cs[v.index].(
                       attempts := cs[v.index].attempts + 1,
                       consumedAt := if v.Verified? then Some(now) else cs[v.index].consumedAt))
  {
  }

  /** A request is refused exactly when a challenge was made within the last 60 seconds; else it adds one, open, without
      attempts, living for the configured time. */
  lemma RequestMeaning(cs: seq<Challenge>, g: Settings, code: string, now: Time)
    ensures TooSoon(cs, now) <==> exists i | 0 <= i < |cs| :: now - cs[i].createdAt <= 60_000_000
    ensures Issued(cs, g, code, now) == cs + [Challenge(code, 0, now + g.lifetime, None, now)]
  {
  }

  // ----- How long a code stays good -----

  /** What the challenge keeps for life. */
  predicate SameChallenges(cs: seq<Challenge>, cs': seq<Challenge>) {
    |cs| <= |cs'| && forall i | 0 <= i < |cs| ::
      cs'[i].code == cs[i].code && cs'[i].expiresAt == cs[i].expiresAt && cs'[i].createdAt == cs[i].createdAt
  }

  lemma {:induction false} RunKeepsChallenges(s: State, steps: seq<Step>, g: Settings)
    requires IsRun(s, steps, g)
    ensures SameChallenges(s.cs, Run(s, steps, g).cs)
    decreases steps
  {
    if steps != [] {
      RunKeepsChallenges(Next(s, steps[0], g), steps[1..], g);
    }
  }

  /** After any run the code of a challenge verifies if and only if the challenge is not consumed, no later one is open,
      its lifetime is not over and it has attempts left. */
  lemma CodeVerifiesIff(s: State, steps: seq<Step>, g: Settings, i: nat)
    requires IsRun(s, steps, g) && i < |s.cs|
    ensures var s' := Run(s, steps, g);
            && i < |s'.cs|
            && (Judge(s'.cs, g, s.cs[i].code, true, true, s'.clock) == Verified(i) <==>
                  && s'.cs[i].consumedAt == None && (forall j | i < j < |s'.cs| :: s'.cs[j].consumedAt != None)
                  && s'.clock < s.cs[i].expiresAt && s'.cs[i].attempts < g.maxAttempts)
  {
    RunKeepsChallenges(s, steps, g);
    VerifiesIff(Run(s, steps, g).cs, g, s.cs[i].code, true, true, Run(s, steps, g).clock);
  }

  /** The step leaves the last challenge the newest open one: time, a refused request, a failed delivery of another
      challenge, or a verification that does not succeed. */
  predicate Harmless(s: State, a: Step, g: Settings)
    requires Enabled(s, a)
  {
    match a
    case Tick(_) => true
    case Request(_) => TooSoon(s.cs, s.clock)
    case DeliveryFails(i) => i != |s.cs| - 1
    case Verify(code, consents, active) => |s.cs| > 0 && (code != s.cs[|s.cs| - 1].code || !consents || !active)
  }

  predicate HarmlessRun(s: State, steps: seq<Step>, g: Settings)
    requires IsRun(s, steps, g)
    decreases steps
  {
    steps != [] ==> Harmless(s, steps[0], g) && HarmlessRun(Next(s, steps[0], g), steps[1..], g)
  }

  function Verifications(steps: seq<Step>): nat {
    if steps == [] then 0 else (if steps[0].Verify? then 1 else 0) + Verifications(steps[1..])
  }

  lemma HarmlessStep(s: State, a: Step, g: Settings)
    requires Enabled(s, a) && Harmless(s, a, g) && s.cs != [] && NewestOpen(s.cs, |s.cs| - 1)
    ensures var cs' := Next(s, a, g).cs;
            && |cs'| == |s.cs| && NewestOpen(cs', |cs'| - 1) && cs'[|cs'| - 1].code == s.cs[|s.cs| - 1].code
            && cs'[|cs'| - 1].attempts <= s.cs[|s.cs| - 1].attempts + (if a.Verify? then 1 else 0)
  {
    CurrentMeaning(s.cs);
    if a.Verify? {
      VerdictWrites(s.cs, g, a.code, a.consents, a.active, s.clock);
    }
  }

  lemma {:induction false} HarmlessRunKeepsOpen(s: State, steps: seq<Step>, g: Settings)
    requires IsRun(s, steps, g) && HarmlessRun(s, steps, g) && s.cs != [] && NewestOpen(s.cs, |s.cs| - 1)
    ensures var cs' := Run(s, steps, g).cs;
            && |cs'| == |s.cs| && NewestOpen(cs', |cs'| - 1)
            && cs'[|cs'| - 1].attempts <= s.cs[|s.cs| - 1].attempts + Verifications(steps)
    decreases steps
  {
    if steps != [] {
      HarmlessStep(s, steps[0], g);
      HarmlessRunKeepsOpen(Next(s, steps[0], g), steps[1..], g);
    }
  }

  /** The code of a fresh challenge still verifies after any run in which it is neither superseded nor consumed, as long as
      its lifetime is not over and fewer verifications than allowed have failed meanwhile. */
  lemma FreshCodeVerifies(s: State, s1: State, code: string, steps: seq<Step>, g: Settings)
    requires !TooSoon(s.cs, s.clock) && s1 == Next(s, Request(code), g)
    requires IsRun(s1, steps, g) && HarmlessRun(s1, steps, g)
    requires Verifications(steps) < g.maxAttempts && Run(s1, steps, g).clock < s.clock + g.lifetime
    ensures Judge(Run(s1, steps, g).cs, g, code, true, true, Run(s1, steps, g).clock) == Verified(|s.cs|)
  {
    RequestMeaning(s.cs, g, code, s.clock);
    HarmlessRunKeepsOpen(s1, steps, g);
    CodeVerifiesIff(s1, steps, g, |s.cs|);
  }
}
