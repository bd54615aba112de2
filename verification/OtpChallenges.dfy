/** api_gateway/auth.py, the one-time-code challenges: request, delivery failure, verification. */
module OtpChallenges {
  import opened Wrappers
  import opened KoraTables

  datatype Challenge = Challenge(code: string, attempts: nat, expiresAt: Time, consumedAt: Option<Time>, createdAt: Time)

  /** What the queries filter on: signup challenges by address, phone challenges by address and number. */
  datatype Subject = Signup(email: string) | PhoneVerify(email: string, phone: string)

  /** Lifetime of a challenge and attempts per challenge, as configured. */
  datatype Settings = Settings(lifetime: Time, maxAttempts: nat)

  // ----- The three writes on the challenges of one subject, in creation order -----

  /** The query for recent challenges finds one. */
  predicate TooSoon(cs: seq<Challenge>, now: Time) {
    exists i | 0 <= i < |cs| :: cs[i].createdAt >= now - Seconds(60)
  }

  function Issued(cs: seq<Challenge>, g: Settings, code: string, now: Time): seq<Challenge> {
    cs + [Challenge(code, 0, now + g.lifetime, None, now)]
  }

  /** The newest challenge that is not consumed. */
  function Current(cs: seq<Challenge>): (r: Option<nat>)
    ensures r.None? ==> forall i | 0 <= i < |cs| :: cs[i].consumedAt.Some?
    ensures r.Some? ==> r.value < |cs| && cs[r.value].consumedAt.None?
                        && forall i | r.value < i < |cs| :: cs[i].consumedAt.Some?
  {
    if cs == [] then None
    else if cs[|cs| - 1].consumedAt.None? then Some(|cs| - 1)
    else Current(cs[..|cs| - 1])
  }

  datatype Verdict =
    | Unavailable                  // no challenge, or expired
    | Exhausted                    // attempts used up
    | WrongCode(index: nat)
    | Declined(index: nat)         // right code, consent or terms missing
    | Disabled(index: nat)         // right code, account disabled: rolled back
    | Verified(index: nat)

  /** What a verification decides. `consents` and `active` are the later checks of the signup handler; the phone
      handler has neither. */
  function Judge(cs: seq<Challenge>, g: Settings, code: string, consents: bool, active: bool, now: Time): Verdict {
    match Current(cs)
    case None => Unavailable
    case Some(i) =>
      if cs[i].expiresAt <= now then Unavailable
      else if cs[i].attempts >= g.maxAttempts then Exhausted
      else if cs[i].code != code then WrongCode(i)
      else if !consents then Declined(i)
      else if !active then Disabled(i)
      else Verified(i)
  }

  function Judged(cs: seq<Challenge>, v: Verdict, now: Time): seq<Challenge>
    requires v.WrongCode? || v.Declined? || v.Verified? ==> v.index < |cs|
  {
    match v
    case WrongCode(i) => cs[i := cs[i].(attempts := cs[i].attempts + 1)]
    case Declined(i) => cs[i := cs[i].(attempts := cs[i].attempts + 1)]
    case Verified(i) => cs[i := cs[i].(attempts := cs[i].attempts + 1, consumedAt := Some(now))]
    case _ => cs
  }

  class OtpStore {
    const settings: Settings
    var table: map<Subject, seq<Challenge>>

    constructor (settings: Settings)
      ensures this.settings == settings && table == map[]
    {
      this.settings := settings;
      table := map[];
    }

    function ChallengesOf(subject: Subject): seq<Challenge>
      reads this
    {
      if subject in table then table[subject] else []
    }

    /** request_signup_otp and request_phone_otp. False stands for the 429 or the 503 answer. */
    method RequestOtp(subject: Subject, code: string, now: Time, sent: bool, failedAt: Time) returns (ok: bool)
      modifies this
      ensures ok <==> !TooSoon(old(ChallengesOf(subject)), now) && sent
      ensures TooSoon(old(ChallengesOf(subject)), now) ==> table == old(table)
      ensures !TooSoon(old(ChallengesOf(subject)), now) ==>
                var cs := Issued(old(ChallengesOf(subject)), settings, code, now);
                table == old(table)[subject := if sent then cs else cs[|cs| - 1 := cs[|cs| - 1].(consumedAt := Some(failedAt))]]
    {
      var challenges := ChallengesOf(subject);
      if TooSoon(challenges, now) {
        return false;
      }
      challenges := Issued(challenges, settings, code, now);
      table := table[subject := challenges];
      if !sent {
        var last := |challenges| - 1;
        challenges := challenges[last := challenges[last].(consumedAt := Some(failedAt))];
        table := table[subject := challenges];
        return false;
      }
      return true;
    }

    /** verify_signup_otp and verify_phone_otp, the challenge part. */
    method VerifyOtp(subject: Subject, code: string, consents: bool, active: bool, now: Time) returns (verdict: Verdict)
      modifies this
      ensures verdict == Judge(old(ChallengesOf(subject)), settings, code, consents, active, now)
      ensures ChallengesOf(subject) == Judged(old(ChallengesOf(subject)), verdict, now)
      ensures forall s | s != subject :: ChallengesOf(s) == old(ChallengesOf(s))
    {
      var challenges := ChallengesOf(subject);
      var current := Current(challenges);
      if current.None? || challenges[current.value].expiresAt <= now {
        return Unavailable;
      }
      var i := current.value;
      var challenge := challenges[i];
      if challenge.attempts >= settings.maxAttempts {
        return Exhausted;
      }
      challenge := challenge.(attempts := challenge.attempts + 1);
      if challenge.code != code {
        table := table[subject := challenges[i := challenge]];
        return WrongCode(i);
      }
      if !consents {
        table := table[subject := challenges[i := challenge]];
        return Declined(i);
      }
      challenge := challenge.(consumedAt := Some(now));
      if !active {
        return Disabled(i);
      }
      table := table[subject := challenges[i := challenge]];
      return Verified(i);
    }
  }

  // ----- Runs for one subject -----

  datatype Use = Use(index: nat, at: Time)

  /** `wrong` and `verified` list the evaluations of a wrong code and the successful verifications. */
  datatype State = State(cs: seq<Challenge>, clock: Time, wrong: seq<Use>, verified: seq<Use>)

  datatype Step =
    | Tick(elapsed: nat)
    | Request(code: string)
    | DeliveryFails(index: nat)
    | Verify(code: string, consents: bool, active: bool)

  predicate Enabled(s: State, a: Step) {
    a.DeliveryFails? ==> a.index < |s.cs|
  }

  function Next(s: State, a: Step, g: Settings): State
    requires Enabled(s, a)
  {
    match a
    case Tick(elapsed) => s.(clock := s.clock + elapsed)
    case Request(code) => if TooSoon(s.cs, s.clock) then s else s.(cs := Issued(s.cs, g, code, s.clock))
    case DeliveryFails(i) => s.(cs := s.cs[i := s.cs[i].(consumedAt := Some(s.clock))])
    case Verify(code, consents, active) =>
      var v := Judge(s.cs, g, code, consents, active, s.clock);
      var s1 := s.(cs := Judged(s.cs, v, s.clock));
      if v.WrongCode? then s1.(wrong := s.wrong + [Use(v.index, s.clock)])
      else if v.Verified? then s1.(verified := s.verified + [Use(v.index, s.clock)])
      else s1
  }

  predicate IsRun(s: State, steps: seq<Step>, g: Settings)
    decreases steps
  {
    steps != [] ==> Enabled(s, steps[0]) && IsRun(Next(s, steps[0], g), steps[1..], g)
  }

  function Run(s: State, steps: seq<Step>, g: Settings): State
    requires IsRun(s, steps, g)
    decreases steps
  {
    if steps == [] then s else Run(Next(s, steps[0], g), steps[1..], g)
  }

  function Start(now: Time): State {
    State([], now, [], [])
  }

  // ----- Counting -----

  predicate InWindow(u: Use, lo: nat, hi: nat, from: Time, to: Time) {
    lo <= u.index < hi && from <= u.at <= to
  }

  /** Uses of challenges lo..hi at instants from..to. */
  function CountUses(us: seq<Use>, lo: nat, hi: nat, from: Time, to: Time): nat {
    if us == [] then 0
    else CountUses(us[..|us| - 1], lo, hi, from, to) + (if InWindow(us[|us| - 1], lo, hi, from, to) then 1 else 0)
  }

  function CountOf(us: seq<Use>, i: nat): nat {
    if us == [] then 0 else CountOf(us[..|us| - 1], i) + (if us[|us| - 1].index == i then 1 else 0)
  }

  lemma CountAppend(us: seq<Use>, u: Use, i: nat)
    ensures CountOf(us + [u], i) == CountOf(us, i) + (if u.index == i then 1 else 0)
  {
    assert (us + [u])[..|us|] == us;
  }

  lemma {:induction false} CountSplit(us: seq<Use>, lo: nat, hi: nat, from: Time, to: Time)
    requires lo <= hi
    ensures CountUses(us, lo, hi + 1, from, to) <= CountUses(us, lo, hi, from, to) + CountOf(us, hi)
  {
    if us != [] {
      CountSplit(us[..|us| - 1], lo, hi, from, to);
    }
  }

  lemma {:induction false} CountEmpty(us: seq<Use>, lo: nat, from: Time, to: Time)
    ensures CountUses(us, lo, lo, from, to) == 0
  {
    if us != [] {
      CountEmpty(us[..|us| - 1], lo, from, to);
    }
  }

  /** At most `most` uses of each challenge give at most `most` times as many challenges. */
  lemma {:induction false} CountBound(us: seq<Use>, lo: nat, hi: nat, from: Time, to: Time, most: nat)
    requires lo <= hi && forall i | lo <= i < hi :: CountOf(us, i) <= most
    ensures CountUses(us, lo, hi, from, to) <= most * (hi - lo)
    decreases hi
  {
    if lo == hi {
      CountEmpty(us, lo, from, to);
    } else {
      CountBound(us, lo, hi - 1, from, to, most);
      CountSplit(us, lo, hi - 1, from, to);
      assert most * (hi - lo) == most * (hi - 1 - lo) + most;
    }
  }

  /** Only the challenges whose uses can fall into the window matter. */
  lemma {:induction false} CountNarrow(us: seq<Use>, n: nat, lo: nat, hi: nat, from: Time, to: Time)
    requires lo <= hi
    requires forall k | 0 <= k < |us| && from <= us[k].at <= to :: lo <= us[k].index < hi
    ensures CountUses(us, 0, n, from, to) <= CountUses(us, lo, hi, from, to)
  {
    if us != [] {
      var init := us[..|us| - 1];
      assert forall k | 0 <= k < |init| :: init[k] == us[k];
      CountNarrow(init, n, lo, hi, from, to);
      assert us[|us| - 1] == us[|us| - 1];
    }
  }

  // ----- The invariant -----

  predicate RowsOk(cs: seq<Challenge>, clock: Time, g: Settings) {
    forall i | 0 <= i < |cs| ::
      cs[i].createdAt <= clock && cs[i].expiresAt == cs[i].createdAt + g.lifetime && cs[i].attempts <= g.maxAttempts
  }

  predicate MinuteApart(cs: seq<Challenge>) {
    forall i, j | 0 <= i < j < |cs| :: cs[i].createdAt + Seconds(60) < cs[j].createdAt
  }

  /** Evaluated while its challenge existed and had not expired. */
  predicate Timely(cs: seq<Challenge>, clock: Time, u: Use) {
    u.index < |cs| && cs[u.index].createdAt <= u.at < cs[u.index].expiresAt && u.at <= clock
  }

  predicate AllTimely(cs: seq<Challenge>, clock: Time, us: seq<Use>) {
    forall k | 0 <= k < |us| :: Timely(cs, clock, us[k])
  }

  predicate EachOnceConsumed(cs: seq<Challenge>, us: seq<Use>) {
    && (forall k | 0 <= k < |us| :: us[k].index < |cs| && cs[us[k].index].consumedAt.Some?)
    && (forall k, l | 0 <= k < l < |us| :: us[k].index != us[l].index)
  }

  /** Each wrong code was counted against its challenge. */
  ghost predicate Charged(cs: seq<Challenge>, us: seq<Use>) {
    forall i: nat :: CountOf(us, i) <= if i < |cs| then cs[i].attempts else 0
  }

  ghost predicate Inv(s: State, g: Settings) {
    && RowsOk(s.cs, s.clock, g) && MinuteApart(s.cs)
    && AllTimely(s.cs, s.clock, s.wrong) && AllTimely(s.cs, s.clock, s.verified)
    && EachOnceConsumed(s.cs, s.verified)
    && Charged(s.cs, s.wrong)
  }

  /** Later rows of the same challenges, possibly with new ones after them. */
  predicate Grown(cs: seq<Challenge>, cs': seq<Challenge>) {
    && |cs| <= |cs'|
    && forall i | 0 <= i < |cs| ::
         && cs'[i].createdAt == cs[i].createdAt && cs'[i].expiresAt == cs[i].expiresAt
         && cs'[i].attempts >= cs[i].attempts && (cs[i].consumedAt.Some? ==> cs'[i].consumedAt.Some?)
  }

  lemma GrownKeepsUses(cs: seq<Challenge>, cs': seq<Challenge>, clock: Time, wrong: seq<Use>, verified: seq<Use>)
    requires Grown(cs, cs') && AllTimely(cs, clock, wrong) && AllTimely(cs, clock, verified)
    requires EachOnceConsumed(cs, verified) && Charged(cs, wrong)
    ensures AllTimely(cs', clock, wrong) && AllTimely(cs', clock, verified)
    ensures EachOnceConsumed(cs', verified) && Charged(cs', wrong)
  {
    forall i: nat ensures CountOf(wrong, i) <= if i < |cs'| then cs'[i].attempts else 0 {
    }
  }

  lemma RequestKeepsInv(s: State, g: Settings, code: string)
    requires Inv(s, g)
    ensures Inv(Next(s, Request(code), g), g)
  {
    if !TooSoon(s.cs, s.clock) {
      GrownKeepsUses(s.cs, Issued(s.cs, g, code, s.clock), s.clock, s.wrong, s.verified);
    }
  }

  /** One more attempt on challenge i pays for one more wrong code. */
  lemma ChargeOne(cs: seq<Challenge>, cs': seq<Challenge>, us: seq<Use>, u: Use)
    requires Charged(cs, us) && u.index < |cs| && |cs'| == |cs|
    requires forall i | 0 <= i < |cs| :: cs'[i].attempts == cs[i].attempts + (if i == u.index then 1 else 0)
    ensures Charged(cs', us + [u])
  {
    forall i: nat ensures CountOf(us + [u], i) <= if i < |cs'| then cs'[i].attempts else 0 {
      CountAppend(us, u, i);
    }
  }

  lemma TimelyAppend(cs: seq<Challenge>, clock: Time, us: seq<Use>, u: Use)
    requires AllTimely(cs, clock, us) && Timely(cs, clock, u)
    ensures AllTimely(cs, clock, us + [u])
  {
  }

  /** A challenge verified now was not consumed before, so it was never verified before. */
  lemma FirstVerification(cs: seq<Challenge>, cs': seq<Challenge>, us: seq<Use>, u: Use)
    requires EachOnceConsumed(cs, us) && Grown(cs, cs')
    requires u.index < |cs| && cs[u.index].consumedAt.None? && cs'[u.index].consumedAt.Some?
    ensures EachOnceConsumed(cs', us + [u])
  {
  }

  lemma VerifyGrows(cs: seq<Challenge>, g: Settings, code: string, consents: bool, active: bool, now: Time)
    requires RowsOk(cs, now, g) && MinuteApart(cs)
    ensures var v := Judge(cs, g, code, consents, active, now);
            var cs' := Judged(cs, v, now);
            && Grown(cs, cs') && |cs'| == |cs| && RowsOk(cs', now, g) && MinuteApart(cs')
            && (v.WrongCode? || v.Verified? ==> Timely(cs', now, Use(v.index, now)))
            && (v.Verified? ==> cs[v.index].consumedAt.None? && cs'[v.index].consumedAt.Some?)
  {
  }

  lemma WrongKeepsUses(s: State, cs': seq<Challenge>, u: Use, g: Settings)
    requires Inv(s, g) && Grown(s.cs, cs') && |cs'| == |s.cs| && u.index < |s.cs| && Timely(cs', s.clock, u)
    requires forall i | 0 <= i < |s.cs| :: cs'[i].attempts == s.cs[i].attempts + (if i == u.index then 1 else 0)
    ensures AllTimely(cs', s.clock, s.wrong + [u]) && AllTimely(cs', s.clock, s.verified)
    ensures EachOnceConsumed(cs', s.verified) && Charged(cs', s.wrong + [u])
  {
    GrownKeepsUses(s.cs, cs', s.clock, s.wrong, s.verified);
    ChargeOne(s.cs, cs', s.wrong, u);
    TimelyAppend(cs', s.clock, s.wrong, u);
  }

  lemma VerifiedKeepsUses(s: State, cs': seq<Challenge>, u: Use, g: Settings)
    requires Inv(s, g) && Grown(s.cs, cs') && u.index < |s.cs| && Timely(cs', s.clock, u)
    requires s.cs[u.index].consumedAt.None? && cs'[u.index].consumedAt.Some?
    ensures AllTimely(cs', s.clock, s.wrong) && AllTimely(cs', s.clock, s.verified + [u])
    ensures EachOnceConsumed(cs', s.verified + [u]) && Charged(cs', s.wrong)
  {
    GrownKeepsUses(s.cs, cs', s.clock, s.wrong, s.verified);
    TimelyAppend(cs', s.clock, s.verified, u);
    FirstVerification(s.cs, cs', s.verified, u);
  }

  lemma VerifyKeepsInv(s: State, g: Settings, code: string, consents: bool, active: bool)
    requires Inv(s, g)
    ensures Inv(Next(s, Verify(code, consents, active), g), g)
  {
    var v := Judge(s.cs, g, code, consents, active, s.clock);
    var cs' := Judged(s.cs, v, s.clock);
    VerifyGrows(s.cs, g, code, consents, active, s.clock);
    if v.WrongCode? {
      WrongKeepsUses(s, cs', Use(v.index, s.clock), g);
    } else if v.Verified? {
      VerifiedKeepsUses(s, cs', Use(v.index, s.clock), g);
    } else {
      GrownKeepsUses(s.cs, cs', s.clock, s.wrong, s.verified);
    }
  }

  lemma StepKeepsInv(s: State, a: Step, g: Settings)
    requires Inv(s, g) && Enabled(s, a)
    ensures Inv(Next(s, a, g), g)
  {
    match a {
      case Request(code) => RequestKeepsInv(s, g, code);
      case Verify(code, consents, active) => VerifyKeepsInv(s, g, code, consents, active);
      case _ =>
    }
  }

  lemma {:induction false} RunKeepsInv(s: State, steps: seq<Step>, g: Settings)
    requires Inv(s, g) && IsRun(s, steps, g)
    ensures Inv(Run(s, steps, g), g)
    decreases steps
  {
    if steps != [] {
      StepKeepsInv(s, steps[0], g);
      RunKeepsInv(Next(s, steps[0], g), steps[1..], g);
    }
  }

  // ----- The bound -----

  /** The challenges created in (from - lifetime, to], a contiguous stretch of the table. */
  lemma {:induction false} Stretch(cs: seq<Challenge>, after: Time, to: Time) returns (lo: nat, hi: nat)
    requires MinuteApart(cs)
    ensures lo <= hi <= |cs|
    ensures forall i | 0 <= i < |cs| && after < cs[i].createdAt <= to :: lo <= i < hi
    ensures forall i | lo <= i < hi :: after < cs[i].createdAt <= to
  {
    if cs == [] {
      lo, hi := 0, 0;
    } else {
      var init := cs[..|cs| - 1];
      lo, hi := Stretch(init, after, to);
      assert forall i | 0 <= i < |init| :: init[i] == cs[i];
      var last := cs[|cs| - 1];
      if after < last.createdAt <= to {
        if lo == hi {
          lo, hi := |cs| - 1, |cs|;
        } else {
          assert cs[lo].createdAt + Seconds(60) < last.createdAt;
          assert forall i | lo <= i < |init| :: after < cs[i].createdAt <= to;
          hi := |cs|;
        }
      }
    }
  }

  /** Challenges more than a minute apart: n of them span more than n - 1 minutes. */
  lemma {:induction false} Spacing(cs: seq<Challenge>, lo: nat, hi: nat)
    requires MinuteApart(cs)
    requires lo < hi <= |cs|
    ensures cs[hi - 1].createdAt >= cs[lo].createdAt + Seconds(60) * (hi - 1 - lo)
    decreases hi
  {
    if lo + 1 < hi {
      Spacing(cs, lo, hi - 1);
      assert cs[hi - 2].createdAt + Seconds(60) < cs[hi - 1].createdAt;
    }
  }

  /** In any T consecutive seconds of any run, the wrong codes evaluated for one subject number at most
      maxAttempts * (floor((T + E) / 60) + 1), E being the lifetime of a challenge. */
  lemma WrongCodesAreBounded(start: Time, steps: seq<Step>, g: Settings, from: Time, duration: Time)
    requires g.lifetime > 0 && duration >= 0 && IsRun(Start(start), steps, g)
    ensures var s := Run(Start(start), steps, g);
            CountUses(s.wrong, 0, |s.cs|, from, from + duration)
            <= g.maxAttempts * ((duration + g.lifetime) / Seconds(60) + 1)
  {
    RunKeepsInv(Start(start), steps, g);
    BoundFromInv(Run(Start(start), steps, g), g, from, duration);
  }

  lemma BoundFromInv(s: State, g: Settings, from: Time, duration: Time)
    requires Inv(s, g) && g.lifetime > 0 && duration >= 0
    ensures CountUses(s.wrong, 0, |s.cs|, from, from + duration)
         <= g.maxAttempts * ((duration + g.lifetime) / Seconds(60) + 1)
  {
    var to := from + duration;
    var lo, hi := Stretch(s.cs, from - g.lifetime, to);
    forall k | 0 <= k < |s.wrong| && from <= s.wrong[k].at <= to ensures lo <= s.wrong[k].index < hi {
      assert Timely(s.cs, s.clock, s.wrong[k]);
    }
    CountNarrow(s.wrong, |s.cs|, lo, hi, from, to);
    CountBound(s.wrong, lo, hi, from, to, g.maxAttempts);
    if lo < hi {
      Spacing(s.cs, lo, hi);
    }
    var n := (duration + g.lifetime) / Seconds(60);
    assert hi - lo <= n + 1;
    MultiplyMonotone(g.maxAttempts, hi - lo, n + 1);
  }

  lemma MultiplyMonotone(k: nat, x: nat, y: nat)
    requires x <= y
    ensures k * x <= k * y
  {
    assert k * y == k * x + k * (y - x);
  }

  /** No challenge is verified twice, before it exists, after it expired, or beyond its attempts. */
  lemma VerificationsAreSound(start: Time, steps: seq<Step>, g: Settings)
    requires IsRun(Start(start), steps, g)
    ensures var s := Run(Start(start), steps, g);
            && EachOnceConsumed(s.cs, s.verified)
            && AllTimely(s.cs, s.clock, s.verified)
            && forall i | 0 <= i < |s.cs| :: s.cs[i].attempts <= g.maxAttempts
  {
    RunKeepsInv(Start(start), steps, g);
  }
}
