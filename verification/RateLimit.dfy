/** config/rate_limit.py, the sliding-window limiter. Each request is logged under its own timestamp, and the log
    member of a rejected request is removed by a later, separate command. */
module RateLimit {

  // ----- The sorted set of one key -----

  /** Members are the timestamps themselves (member str(now), score now); `expiresAt` is the key's time to live. */
  datatype Log = Log(stamps: set<real>, expiresAt: real)

  function EmptyLog(): Log {
    Log({}, 0.0)
  }

  /** The members a reader sees at an instant: none once the key has expired. */
  function Live(log: Log, now: real): set<real> {
    if now >= log.expiresAt then {} else log.stamps
  }

  /** ZREMRANGEBYSCORE 0 lo, both ends included. */
  function Trim(stamps: set<real>, lo: real): set<real> {
    set x | x in stamps && !(0.0 <= x <= lo)
  }

  /** ZCARD of the trimmed log: what the pipeline reports. */
  function Count(log: Log, window: real, now: real): nat {
    |Trim(Live(log, now), now - window)|
  }

  /** The log after the atomic pipeline of a request. */
  function Pipeline(log: Log, window: real, now: real): Log {
    Log(Trim(Live(log, now), now - window) + {now}, now + window + 1.0)
  }

  /** ZREM of a rejected request's member. */
  function Undo(log: Log, stamp: real): Log {
    log.(stamps := log.stamps - {stamp})
  }

  class RateLimiter {
    var logs: map<string, Log>

    constructor ()
      ensures logs == map[]
    {
      logs := map[];
    }

    function LogOf(key: string): Log
      reads this
    {
      if key in logs then logs[key] else EmptyLog()
    }

    /** pipe.execute(): trims, counts, adds and renews the time to live, as one step. */
    method RunPipeline(key: string, window: real, now: real) returns (count: nat)
      modifies this
      ensures count == Count(old(LogOf(key)), window, now)
      ensures logs == old(logs)[key := Pipeline(old(LogOf(key)), window, now)]
    {
      var log := LogOf(key);
      var stamps := Live(log, now);
      stamps := Trim(stamps, now - window);
      count := |stamps|;
      stamps := stamps + {now};
      logs := logs[key := Log(stamps, now + window + 1.0)];
    }

    method Remove(key: string, stamp: real)
      modifies this
      ensures logs == old(logs)[key := Undo(old(LogOf(key)), stamp)]
    {
      var log := LogOf(key);
      logs := logs[key := log.(stamps := log.stamps - {stamp})];
    }

    /** is_allowed, undisturbed. False stands for the raised RateLimitError. */
    method IsAllowed(key: string, limit: int, window: real, now: real) returns (allowed: bool)
      modifies this
      ensures allowed <==> Count(old(LogOf(key)), window, now) < limit
      ensures var log := Pipeline(old(LogOf(key)), window, now);
              logs == old(logs)[key := if allowed then log else Undo(log, now)]
    {
      var currentCount := RunPipeline(key, window, now);
      if currentCount >= limit {
        Remove(key, now);
        return false;
      }
      return true;
    }
  }

  /** The log a request leaves: of what it could see, the members after the start of its window, and itself, for one
      second more than the window; and the count it reports is of the former. */
  lemma PipelineMeaning(log: Log, window: real, now: real)
    requires forall x | x in log.stamps :: x >= 0.0
    ensures var seen := set x | x in log.stamps && now < log.expiresAt && x > now - window;
            Pipeline(log, window, now) == Log(seen + {now}, now + window + 1.0) && Count(log, window, now) == |seen|
    ensures forall stamp :: Undo(log, stamp) == Log(log.stamps - {stamp}, log.expiresAt)
  {
    var seen := set x | x in log.stamps && now < log.expiresAt && x > now - window;
    assert Trim(Live(log, now), now - window) == seen;
  }

  // ----- Requests and removals of one key, interleaved -----

  /** `last` is the latest timestamp, `admitted` the admitted requests in order and `pending` the rejected ones whose
      removal has not run. `asked` holds every timestamp used, `removed` those a removal took from the log and no later
      request logged again. A removal may run late, between other requests, or never. */
  datatype State = State(
    log: Log,
    last: real,
    admitted: seq<real>,
    pending: multiset<real>,
    asked: set<real>,
    removed: set<real>)

  datatype Step = Request(now: real) | Removal(stamp: real)

  function Start(): State {
    State(EmptyLog(), -1.0, [], multiset{}, {}, {})
  }

  /** Timestamps are nonnegative and never go back; several requests may share one. */
  predicate Enabled(s: State, a: Step) {
    match a
    case Request(now) => 0.0 <= now && s.last <= now
    case Removal(stamp) => stamp in s.pending
  }

  predicate Rejects(s: State, now: real, limit: nat, window: real) {
    Count(s.log, window, now) >= limit
  }

  function Next(s: State, a: Step, limit: nat, window: real): State {
    match a
    case Request(now) =>
      var s1 := s.(log := Pipeline(s.log, window, now), last := now, asked := s.asked + {now}, removed := s.removed - {now});
      if Rejects(s, now, limit, window) then s1.(pending := s.pending + multiset{now})
      else s1.(admitted := s.admitted + [now])
    case Removal(stamp) =>
      s.(log := Undo(s.log, stamp), pending := s.pending - multiset{stamp}, removed := s.removed + {stamp})
  }

  predicate IsRun(s: State, steps: seq<Step>, limit: nat, window: real)
    decreases steps
  {
    steps != [] ==> Enabled(s, steps[0]) && IsRun(Next(s, steps[0], limit, window), steps[1..], limit, window)
  }

  function Run(s: State, steps: seq<Step>, limit: nat, window: real): State
    decreases steps
  {
    if steps == [] then s else Run(Next(s, steps[0], limit, window), steps[1..], limit, window)
  }

  /** is_allowed undisturbed: a request and, if it was rejected, its removal. */
  function CallSteps(s: State, now: real, limit: nat, window: real): seq<Step> {
    if Rejects(s, now, limit, window) then [Request(now), Removal(now)] else [Request(now)]
  }

  /** An undisturbed call is a run that leaves the log IsAllowed leaves, admits what it allows and has no removal
      outstanding. */
  lemma UndisturbedCallIsRun(s: State, now: real, limit: nat, window: real)
    requires Enabled(s, Request(now))
    ensures var steps := CallSteps(s, now, limit, window);
            var s' := Run(s, steps, limit, window);
            var allowed := Count(s.log, window, now) < limit;
            && IsRun(s, steps, limit, window)
            && s'.log == (if allowed then Pipeline(s.log, window, now) else Undo(Pipeline(s.log, window, now), now))
            && s'.admitted == (if allowed then s.admitted + [now] else s.admitted)
            && s'.pending == s.pending
  {
    var s1 := Next(s, Request(now), limit, window);
    assert [Request(now)][1..] == [] && [Request(now), Removal(now)][1..] == [Removal(now)] && [Removal(now)][1..] == [];
    if Rejects(s, now, limit, window) {
      assert IsRun(s1, [Removal(now)], limit, window);
      assert Run(s1, [Removal(now)], limit, window) == Next(s1, Removal(now), limit, window);
    }
  }

  // ----- Admissions of a window, counted with their multiplicity -----

  /** x lies in the window (t - window, t]. */
  predicate InWindow(x: real, t: real, window: real) {
    t - window < x <= t
  }

  function Admissions(xs: seq<real>, t: real, window: real): nat {
    if xs == [] then 0
    else Admissions(xs[..|xs| - 1], t, window) + (if InWindow(xs[|xs| - 1], t, window) then 1 else 0)
  }

  lemma AdmissionsAppend(xs: seq<real>, x: real, t: real, window: real)
    ensures Admissions(xs + [x], t, window) == Admissions(xs, t, window) + (if InWindow(x, t, window) then 1 else 0)
  {
    assert (xs + [x])[..|xs|] == xs;
  }

  /** Once no admission is later than `now`, the window that ends there holds all a later window still holds. */
  lemma {:induction false} LaterWindowHoldsLess(xs: seq<real>, now: real, t: real, window: real)
    requires now <= t && forall i | 0 <= i < |xs| :: xs[i] <= now
    ensures Admissions(xs, t, window) <= Admissions(xs, now, window)
  {
    if xs != [] {
      LaterWindowHoldsLess(xs[..|xs| - 1], now, t, window);
    }
  }

  lemma {:induction false} EmptyWindow(xs: seq<real>, t: real)
    ensures Admissions(xs, t, 0.0) == 0
  {
    if xs != [] {
      EmptyWindow(xs[..|xs| - 1], t);
    }
  }

  /** No window (t - window, t], for any real t, holds more than `limit` admissions. */
  ghost predicate WithinLimit(xs: seq<real>, limit: nat, window: real) {
    forall t: real :: Admissions(xs, t, window) <= limit
  }

  /** One more admission keeps every window within the limit if and only if its own window had room. */
  lemma AdmissionFitsIff(xs: seq<real>, now: real, limit: nat, window: real)
    requires WithinLimit(xs, limit, window) && limit > 0 && window >= 0.0
    requires forall i | 0 <= i < |xs| :: xs[i] <= now
    ensures WithinLimit(xs + [now], limit, window) <==> Admissions(xs, now, window) < limit
  {
    AdmissionsAppend(xs, now, now, window);
    if window == 0.0 {
      EmptyWindow(xs, now);
    }
    if Admissions(xs, now, window) < limit {
      forall t: real ensures Admissions(xs + [now], t, window) <= limit {
        AdmissionsAppend(xs, now, t, window);
        if now <= t {
          LaterWindowHoldsLess(xs, now, t, window);
        }
      }
    }
  }

  lemma AdmissionsStay(xs: seq<real>, now: real, limit: nat, window: real)
    requires WithinLimit(xs + [now], limit, window)
    ensures WithinLimit(xs, limit, window)
  {
    forall t: real ensures Admissions(xs, t, window) <= limit {
      AdmissionsAppend(xs, now, t, window);
    }
  }

  predicate Admits(s: State, a: Step, limit: nat, window: real) {
    a.Request? && !Rejects(s, a.now, limit, window)
  }

  /** Each admission of the run finds fewer than `limit` admissions in its window. */
  predicate EveryAdmissionHasRoom(s: State, steps: seq<Step>, limit: nat, window: real)
    decreases steps
  {
    steps != [] ==>
      && (Admits(s, steps[0], limit, window) ==> Admissions(s.admitted, steps[0].now, window) < limit)
      && EveryAdmissionHasRoom(Next(s, steps[0], limit, window), steps[1..], limit, window)
  }

  predicate Past(s: State) {
    forall i | 0 <= i < |s.admitted| :: s.admitted[i] <= s.last
  }

  lemma {:induction false} OverrunStays(s: State, steps: seq<Step>, limit: nat, window: real)
    requires !WithinLimit(s.admitted, limit, window)
    ensures !WithinLimit(Run(s, steps, limit, window).admitted, limit, window)
    decreases steps
  {
    if steps != [] {
      var s1 := Next(s, steps[0], limit, window);
      if WithinLimit(s1.admitted, limit, window) && Admits(s, steps[0], limit, window) {
        AdmissionsStay(s.admitted, steps[0].now, limit, window);
      }
      OverrunStays(s1, steps[1..], limit, window);
    }
  }

  /** Over every run, shared timestamps, delayed, lost and interleaved removals included: every window stays within
      the limit if and only if each admission found room in its own window. */
  lemma {:induction false} WindowsHoldIff(s: State, steps: seq<Step>, limit: nat, window: real)
    requires window >= 0.0 && Past(s) && WithinLimit(s.admitted, limit, window) && IsRun(s, steps, limit, window)
    ensures WithinLimit(Run(s, steps, limit, window).admitted, limit, window)
       <==> EveryAdmissionHasRoom(s, steps, limit, window)
    decreases steps
  {
    if steps != [] {
      var s1 := Next(s, steps[0], limit, window);
      if Admits(s, steps[0], limit, window) {
        AdmissionFitsIff(s.admitted, steps[0].now, limit, window);
      }
      if WithinLimit(s1.admitted, limit, window) {
        WindowsHoldIff(s1, steps[1..], limit, window);
      } else {
        OverrunStays(s1, steps[1..], limit, window);
      }
    }
  }

  // ----- What the pipeline counts -----

  /** The log holds exactly the timestamps of the last window that were used and not removed since. */
  predicate Inv(s: State, window: real) {
    && window >= 0.0 && Past(s)
    && (forall x | x in s.asked :: 0.0 <= x <= s.last)
    && s.log.stamps <= s.asked - s.removed
    && (forall x | x in s.asked - s.removed && s.last - window < x :: x in s.log.stamps)
    && (forall x | x in s.admitted :: x in s.asked)
    && (forall x | x in s.asked :: x in s.admitted || x in s.pending || x in s.removed)
    && (s.last >= 0.0 ==> s.log.expiresAt == s.last + window + 1.0)
    && (s.last < 0.0 ==> s.asked == {})
  }

  /** Key expiry, one second after the window, never hides a member the trim would keep. */
  lemma ExpiryChangesNothing(s: State, window: real, now: real)
    requires Inv(s, window) && Enabled(s, Request(now))
    ensures Trim(Live(s.log, now), now - window) == Trim(s.log.stamps, now - window)
  {
    if now >= s.log.expiresAt {
      forall x | x in s.log.stamps ensures x <= now - window {
        assert x in s.asked;
      }
    }
  }

  /** The timestamps of a window that were used and not removed since. */
  function Visible(s: State, now: real, window: real): set<real> {
    set x | x in s.asked - s.removed && InWindow(x, now, window)
  }

  lemma CountedMembers(s: State, window: real, now: real)
    requires Inv(s, window) && Enabled(s, Request(now))
    ensures Trim(Live(s.log, now), now - window) == Visible(s, now, window)
  {
    ExpiryChangesNothing(s, window, now);
    forall x | x in Visible(s, now, window) ensures x in s.log.stamps {
      assert s.last - window < x;
    }
    forall x | x in Trim(s.log.stamps, now - window) ensures x in Visible(s, now, window) {
      assert x in s.asked;
    }
  }

  lemma RequestKeepsInv(s: State, now: real, limit: nat, window: real)
    requires Inv(s, window) && Enabled(s, Request(now))
    ensures Inv(Next(s, Request(now), limit, window), window)
  {
    CountedMembers(s, window, now);
    var s' := Next(s, Request(now), limit, window);
    assert s'.log.stamps == Visible(s, now, window) + {now};
    forall x | x in s'.asked - s'.removed && now - window < x ensures x in s'.log.stamps {
      assert x == now || x in Visible(s, now, window);
    }
  }

  lemma RemovalKeepsInv(s: State, stamp: real, limit: nat, window: real)
    requires Inv(s, window) && Enabled(s, Removal(stamp))
    ensures Inv(Next(s, Removal(stamp), limit, window), window)
  {
  }

  lemma {:induction false} RunKeepsInv(s: State, steps: seq<Step>, limit: nat, window: real)
    requires Inv(s, window) && IsRun(s, steps, limit, window)
    ensures Inv(Run(s, steps, limit, window), window)
    decreases steps
  {
    if steps != [] {
      match steps[0] {
        case Request(now) => RequestKeepsInv(s, now, limit, window);
        case Removal(stamp) => RemovalKeepsInv(s, stamp, limit, window);
      }
      RunKeepsInv(Next(s, steps[0], limit, window), steps[1..], limit, window);
    }
  }

  lemma SubsetSize<T>(x: set<T>, y: set<T>)
    requires x <= y
    ensures |x| <= |y| && (|x| == |y| <==> x == y)
  {
    assert y == x + (y - x);
  }

  /** The timestamps of the admissions in a window. */
  function Stamps(xs: seq<real>, t: real, window: real): set<real> {
    set x | x in xs && InWindow(x, t, window)
  }

  predicate DistinctIn(xs: seq<real>, t: real, window: real) {
    forall i, j | 0 <= i < j < |xs| && InWindow(xs[i], t, window) :: xs[i] != xs[j]
  }

  /** A set of timestamps counts the admissions of a window if and only if no two of them share one. */
  lemma {:induction false} StampsCountIff(xs: seq<real>, t: real, window: real)
    ensures |Stamps(xs, t, window)| <= Admissions(xs, t, window)
    ensures |Stamps(xs, t, window)| == Admissions(xs, t, window) <==> DistinctIn(xs, t, window)
  {
    if xs != [] {
      var init, x := xs[..|xs| - 1], xs[|xs| - 1];
      StampsCountIff(init, t, window);
      assert xs == init + [x];
      assert Stamps(xs, t, window) == Stamps(init, t, window) + (if InWindow(x, t, window) then {x} else {});
      DistinctAppend(init, x, t, window);
    }
  }

  lemma DistinctAppend(xs: seq<real>, x: real, t: real, window: real)
    ensures DistinctIn(xs + [x], t, window) <==> DistinctIn(xs, t, window) && x !in Stamps(xs, t, window)
  {
    var ys := xs + [x];
    assert ys[|xs|] == x && forall i | 0 <= i < |xs| :: ys[i] == xs[i];
    if DistinctIn(ys, t, window) {
      forall i, j | 0 <= i < j < |xs| && InWindow(xs[i], t, window) ensures xs[i] != xs[j] {
        assert ys[i] != ys[j];
      }
      forall i | 0 <= i < |xs| && InWindow(xs[i], t, window) ensures xs[i] != x {
        assert ys[i] != ys[|xs|];
      }
    }
  }

  /** The admissions of the window that the log still shows. */
  function SeenAdmissions(s: State, now: real, window: real): set<real> {
    Visible(s, now, window) * Stamps(s.admitted, now, window)
  }

  /** No two admissions of the window share a timestamp and no removal took one. */
  predicate SeesAll(s: State, now: real, window: real) {
    DistinctIn(s.admitted, now, window) && Stamps(s.admitted, now, window) !! s.removed
  }

  /** The pipeline's count sees every admission of its window if and only if their timestamps are distinct and none
      was removed. */
  lemma CountSeesAllIff(s: State, now: real, window: real)
    requires Inv(s, window) && Enabled(s, Request(now))
    ensures |SeenAdmissions(s, now, window)| <= Admissions(s.admitted, now, window)
    ensures |SeenAdmissions(s, now, window)| == Admissions(s.admitted, now, window) <==> SeesAll(s, now, window)
    ensures |SeenAdmissions(s, now, window)| <= Count(s.log, window, now)
  {
    CountedMembers(s, window, now);
    StampsCountIff(s.admitted, now, window);
    SubsetSize(SeenAdmissions(s, now, window), Stamps(s.admitted, now, window));
    SubsetSize(SeenAdmissions(s, now, window), Visible(s, now, window));
    assert SeenAdmissions(s, now, window) == Stamps(s.admitted, now, window) - s.removed;
  }

  /** Every admission of the run was decided on a count that saw all earlier admissions of its window. */
  predicate EveryCountSeesAll(s: State, steps: seq<Step>, limit: nat, window: real)
    decreases steps
  {
    steps != [] ==>
      && (Admits(s, steps[0], limit, window) ==> SeesAll(s, steps[0].now, window))
      && EveryCountSeesAll(Next(s, steps[0], limit, window), steps[1..], limit, window)
  }

  lemma {:induction false} SeeingAllLeavesRoom(s: State, steps: seq<Step>, limit: nat, window: real)
    requires Inv(s, window) && IsRun(s, steps, limit, window) && EveryCountSeesAll(s, steps, limit, window)
    ensures EveryAdmissionHasRoom(s, steps, limit, window)
    decreases steps
  {
    if steps != [] {
      match steps[0] {
        case Request(now) =>
          CountSeesAllIff(s, now, window);
          RequestKeepsInv(s, now, limit, window);
        case Removal(stamp) => RemovalKeepsInv(s, stamp, limit, window);
      }
      SeeingAllLeavesRoom(Next(s, steps[0], limit, window), steps[1..], limit, window);
    }
  }

  // ----- Safety -----

  predicate StampsDiffer(s: State, steps: seq<Step>, limit: nat, window: real)
    decreases steps
  {
    steps != [] ==>
      && (steps[0].Request? ==> steps[0].now !in s.asked)
      && StampsDiffer(Next(s, steps[0], limit, window), steps[1..], limit, window)
  }

  predicate Separate(s: State) {
    && (forall i, j | 0 <= i < j < |s.admitted| :: s.admitted[i] != s.admitted[j])
    && (forall x | x in s.admitted :: x !in s.pending && x !in s.removed && x in s.asked)
    && (forall x | x in s.pending :: x in s.asked)
    && s.removed <= s.asked
  }

  /** Removals of rejected requests never reach an admitted one, and every count sees every admission. */
  lemma {:induction false} DistinctStampsSeeAll(s: State, steps: seq<Step>, limit: nat, window: real)
    requires Separate(s) && IsRun(s, steps, limit, window) && StampsDiffer(s, steps, limit, window)
    ensures EveryCountSeesAll(s, steps, limit, window)
    decreases steps
  {
    if steps != [] {
      assert steps[0].Request? ==> SeesAll(s, steps[0].now, window);
      DistinctStampsSeeAll(Next(s, steps[0], limit, window), steps[1..], limit, window);
    }
  }

  /** Every window (t - window, t], for every real t, holds at most `limit` admissions, whatever removals are delayed,
      lost or interleaved with later requests, as long as each admission was decided on a count that saw them all. */
  lemma AtMostLimitPerWindow(steps: seq<Step>, limit: nat, window: real, t: real)
    requires window >= 0.0 && IsRun(Start(), steps, limit, window) && EveryCountSeesAll(Start(), steps, limit, window)
    ensures Admissions(Run(Start(), steps, limit, window).admitted, t, window) <= limit
  {
    SeeingAllLeavesRoom(Start(), steps, limit, window);
    WindowsHoldIff(Start(), steps, limit, window);
  }

  /** Distinct timestamps are enough. */
  lemma DistinctStampsKeepLimit(steps: seq<Step>, limit: nat, window: real, t: real)
    requires window >= 0.0 && IsRun(Start(), steps, limit, window) && StampsDiffer(Start(), steps, limit, window)
    ensures Admissions(Run(Start(), steps, limit, window).admitted, t, window) <= limit
  {
    DistinctStampsSeeAll(Start(), steps, limit, window);
    AtMostLimitPerWindow(steps, limit, window, t);
  }

  // ----- Exactness -----

  /** In any run a request is rejected exactly when `limit` timestamps of its window were used and not removed. With no
      removal outstanding and all admissions of the window in sight, exactly when `limit` admissions lie in it. */
  lemma RejectedIffWindowFull(steps: seq<Step>, limit: nat, window: real, now: real)
    requires window >= 0.0 && IsRun(Start(), steps, limit, window)
    requires Enabled(Run(Start(), steps, limit, window), Request(now))
    ensures var s := Run(Start(), steps, limit, window);
            && (Rejects(s, now, limit, window) <==> |Visible(s, now, window)| >= limit)
            && (s.pending == multiset{} && SeesAll(s, now, window) ==>
                  (Rejects(s, now, limit, window) <==> Admissions(s.admitted, now, window) >= limit))
  {
    RunKeepsInv(Start(), steps, limit, window);
    var s := Run(Start(), steps, limit, window);
    CountedMembers(s, window, now);
    if s.pending == multiset{} && SeesAll(s, now, window) {
      CountSeesAllIff(s, now, window);
      assert Visible(s, now, window) == SeenAdmissions(s, now, window);
    }
  }

  // ----- Shared timestamps -----

  lemma RunFirst(s: State, a: Step, rest: seq<Step>, limit: nat, window: real)
    requires Enabled(s, a) && IsRun(Next(s, a, limit, window), rest, limit, window)
    ensures IsRun(s, [a] + rest, limit, window)
    ensures Run(s, [a] + rest, limit, window) == Run(Next(s, a, limit, window), rest, limit, window)
  {
    assert ([a] + rest)[1..] == rest;
  }

  /** A rejected request that shares the timestamp of an admitted one takes its log member away, and the next request
      of the window is admitted beyond a limit of one. */
  lemma SharedTimestampLosesAdmission(window: real, now: real)
    requires window > 0.0 && now >= 0.0
    ensures var steps := [Request(now), Request(now), Removal(now), Request(now)];
            && IsRun(Start(), steps, 1, window)
            && Run(Start(), steps, 1, window).admitted == [now, now]
            && Admissions(Run(Start(), steps, 1, window).admitted, now, window) == 2
  {
    var s1 := Next(Start(), Request(now), 1, window);
    var s2 := Next(s1, Request(now), 1, window);
    var s3 := Next(s2, Removal(now), 1, window);
    var s4 := Next(s3, Request(now), 1, window);
    assert Trim({}, now - window) == {} && Trim({now}, now - window) == {now};
    assert s1.log.stamps == {now} && s2.log.stamps == {now} && s3.log.stamps == {};
    RunFirst(s3, Request(now), [], 1, window);
    RunFirst(s2, Removal(now), [Request(now)], 1, window);
    RunFirst(s1, Request(now), [Removal(now), Request(now)], 1, window);
    RunFirst(Start(), Request(now), [Request(now), Removal(now), Request(now)], 1, window);
    AdmissionsAppend([now], now, now, window);
    AdmissionsAppend([], now, now, window);
    assert [] + [now] == [now] && s4.admitted == [now] + [now];
  }

  function Burst(now: real, n: nat): seq<Step> {
    if n == 0 then [] else [Request(now)] + Burst(now, n - 1)
  }

  /** Even without a removal: requests of one instant share one log member, so a limit of two or more admits any
      number of them. */
  lemma {:induction false} OneInstantAdmitsAll(s: State, now: real, n: nat, limit: nat, window: real)
    requires window > 0.0 && limit >= 2 && Enabled(s, Request(now))
    requires Trim(Live(s.log, now), now - window) <= {now}
    ensures var s' := Run(s, Burst(now, n), limit, window);
            && IsRun(s, Burst(now, n), limit, window)
            && Admissions(s'.admitted, now, window) == Admissions(s.admitted, now, window) + n
    decreases n
  {
    if n > 0 {
      assert Burst(now, n)[1..] == Burst(now, n - 1);
      SubsetSize(Trim(Live(s.log, now), now - window), {now});
      AdmissionsAppend(s.admitted, now, now, window);
      OneInstantAdmitsAll(Next(s, Request(now), limit, window), now, n - 1, limit, window);
    }
  }
}
