/** The circuit breaker in front of the GitHub API: the breaker itself, and the breaker with
    any number of concurrent calls that enter through it and report to it. */
module Circuit {
  import opened Arithmetic

  datatype State = Closed | Open | HalfOpen

  /** Times are nanoseconds. `openedAt` means something only while open. */
  datatype Breaker = Breaker(
    failureLimit: int, openInterval: int, halfOpenLimit: int,
    state: State, consecutiveFail: int, openedAt: int, halfOpenActive: int)

  predicate Valid(b: Breaker) {
    && b.failureLimit > 0 && b.openInterval > 0 && b.halfOpenLimit > 0
    && (b.state == Closed <==> b.consecutiveFail < b.failureLimit)
    && b.consecutiveFail >= 0
    && (b.state != HalfOpen ==> b.halfOpenActive == 0)
    && (b.state == HalfOpen ==> 1 <= b.halfOpenActive <= b.halfOpenLimit)
  }

  function Before(b: Breaker, now: int): (Breaker, bool) {
    if b.state == Open && now - b.openedAt < b.openInterval then (b, false)
    else
      var b' := if b.state == Open then b.(state := HalfOpen, halfOpenActive := 0) else b;
      if b'.state != HalfOpen then (b', true)
      else if b'.halfOpenActive >= b'.halfOpenLimit then (b', false)
      else (b'.(halfOpenActive := b'.halfOpenActive + 1), true)
  }

  function Success(b: Breaker): Breaker {
    b.(state := Closed, consecutiveFail := 0, openedAt := 0, halfOpenActive := 0)
  }

  function Failure(b: Breaker, now: int): Breaker {
    if b.state == HalfOpen then b.(state := Open, openedAt := now, halfOpenActive := 0)
    else
      var b' := b.(consecutiveFail := b.consecutiveFail + 1);
      if b'.consecutiveFail >= b'.failureLimit then b'.(state := Open, openedAt := now, halfOpenActive := 0) else b'
  }

  class CircuitBreaker {
    const failureLimit: int
    const openInterval: int
    const halfOpenLimit: int
    var state: State
    var consecutiveFail: int
    var openedAt: int
    var halfOpenActive: int

    ghost function Value(): Breaker
      reads this
    {
      Breaker(failureLimit, openInterval, halfOpenLimit, state, consecutiveFail, openedAt, halfOpenActive)
    }

    constructor (failureLimit: int, openInterval: int, halfOpenLimit: int)
      ensures Valid(Value()) && state == Closed && consecutiveFail == 0
      ensures this.failureLimit == if failureLimit <= 0 then 5 else failureLimit
      ensures this.openInterval == if openInterval <= 0 then 30_000_000_000 else openInterval
      ensures this.halfOpenLimit == if halfOpenLimit <= 0 then 1 else halfOpenLimit
    {
      this.failureLimit := if failureLimit <= 0 then 5 else failureLimit;
      this.openInterval := if openInterval <= 0 then 30_000_000_000 else openInterval;
      this.halfOpenLimit := if halfOpenLimit <= 0 then 1 else halfOpenLimit;
      state, consecutiveFail, openedAt, halfOpenActive := Closed, 0, 0, 0;
    }

    /** False is the open-circuit error. */
    method BeforeCall(now: int) returns (admitted: bool)
      modifies this
      ensures (Value(), admitted) == Before(old(Value()), now)
      ensures old(Valid(Value())) ==> Valid(Value())
    {
      if state == Open {
        if now - openedAt < openInterval {
          return false;
        }
        state := HalfOpen;
        halfOpenActive := 0;
      }
      if state == HalfOpen {
        if halfOpenActive >= halfOpenLimit {
          return false;
        }
        halfOpenActive := halfOpenActive + 1;
      }
      return true;
    }

    method ReportSuccess()
      modifies this
      ensures Value() == Success(old(Value()))
      ensures old(Valid(Value())) ==> Valid(Value())
    {
      state := Closed;
      consecutiveFail := 0;
      openedAt := 0;
      halfOpenActive := 0;
    }

    method ReportFailure(now: int)
      modifies this
      ensures Value() == Failure(old(Value()), now)
      ensures old(Valid(Value())) ==> Valid(Value())
    {
      if state == HalfOpen {
        state := Open;
        openedAt := now;
        halfOpenActive := 0;
        return;
      }
      consecutiveFail := consecutiveFail + 1;
      if consecutiveFail >= failureLimit {
        state := Open;
        openedAt := now;
        halfOpenActive := 0;
      }
    }
  }

  // ----- Calls in flight -----

  /** Calls enter through the breaker, run on their own, and leave by reporting an outcome
      or, when a backoff sleep is canceled, without reporting anything. */
  datatype Step =
    | Enter(call: nat, now: int)
    | ReportOk(call: nat)
    | ReportFailed(call: nat, now: int)
    | Abandon(call: nat)

  /** `inFlight` maps each running call to the half-open epoch that admitted it, or to 0 if
      it was admitted by the closed breaker. `epoch` counts half-open periods, `silent` the
      calls of the current one that left without reporting. */
  datatype System = System(b: Breaker, inFlight: map<nat, nat>, epoch: nat, silent: nat)

  predicate Possible(s: System, step: Step) {
    match step
    case Enter(call, _) => call !in s.inFlight
    case ReportOk(call) => call in s.inFlight
    case ReportFailed(call, _) => call in s.inFlight
    case Abandon(call) => call in s.inFlight
  }

  function Next(s: System, step: Step): System {
    match step
    case Enter(call, now) =>
      var (b, admitted) := Before(s.b, now);
      var opens := s.b.state == Open && b.state == HalfOpen;
      var epoch := if opens then s.epoch + 1 else s.epoch;
      var silent := if opens then 0 else s.silent;
      System(b, if admitted then s.inFlight[call := if b.state == HalfOpen then epoch else 0] else s.inFlight, epoch, silent)
    case ReportOk(call) => s.(b := Success(s.b), inFlight := s.inFlight - {call})
    case ReportFailed(call, now) => s.(b := Failure(s.b, now), inFlight := s.inFlight - {call})
    case Abandon(call) =>
      s.(inFlight := s.inFlight - {call},
         silent := if call in s.inFlight && s.inFlight[call] == s.epoch && s.b.state == HalfOpen then s.silent + 1 else s.silent)
  }

  /** The running calls that the current half-open period admitted. */
  function Probes(s: System): set<nat> { set c | c in s.inFlight && s.inFlight[c] == s.epoch }

  predicate Start(s: System) {
    Valid(s.b) && s.b.state == Closed && s.inFlight == map[] && s.epoch == 0 && s.silent == 0
  }

  /** In the half-open state every slot in use belongs to a running probe or to a probe that
      left silently. */
  predicate Accounted(s: System) {
    && Valid(s.b)
    && (forall c :: c in s.inFlight ==> s.inFlight[c] <= s.epoch)
    && (s.b.state == HalfOpen ==> s.epoch > 0 && s.b.halfOpenActive == |Probes(s)| + s.silent)
  }

  lemma EnterAccounted(s: System, call: nat, now: int)
    requires Accounted(s) && call !in s.inFlight
    ensures Accounted(Next(s, Enter(call, now)))
  {
    var s' := Next(s, Enter(call, now));
    if s'.b.state == HalfOpen {
      if s.b.state == Open {
        assert Probes(s') == {call};
      } else if s'.b != s.b {
        assert Probes(s') == Probes(s) + {call};
      } else {
        assert Probes(s') == Probes(s);
      }
    }
  }

  lemma AccountedStep(s: System, step: Step)
    requires Accounted(s) && Possible(s, step)
    ensures Accounted(Next(s, step))
  {
    hide Before;
    match step {
      case Enter(call, now) => EnterAccounted(s, call, now);
      case Abandon(call) => assert Probes(Next(s, step)) == Probes(s) - {call};
      case _ =>
    }
  }

  predicate Run(states: seq<System>, steps: seq<Step>) {
    && |states| == |steps| + 1
    && (forall i :: 0 <= i < |steps| ==> Possible(states[i], steps[i]) && states[i + 1] == Next(states[i], steps[i]))
  }

  /** The breaker's invariant and the slot accounting hold in every reachable state, however
      entries, outcomes and silent exits interleave. */
  lemma {:induction false} SlotsAccounted(states: seq<System>, steps: seq<Step>, n: nat)
    requires Run(states, steps) && Start(states[0]) && n < |states|
    ensures Accounted(states[n])
  {
    if n > 0 {
      SlotsAccounted(states, steps, n - 1);
      AccountedStep(states[n - 1], steps[n - 1]);
    }
  }

  predicate NobodySilent(steps: seq<Step>) { forall i :: 0 <= i < |steps| ==> !steps[i].Abandon? }

  lemma {:induction false} NeverSilent(states: seq<System>, steps: seq<Step>, n: nat)
    requires Run(states, steps) && Start(states[0]) && n < |states| && NobodySilent(steps)
    ensures states[n].silent == 0
  {
    if n > 0 {
      NeverSilent(states, steps, n - 1);
      assert states[n] == Next(states[n - 1], steps[n - 1]) && !steps[n - 1].Abandon?;
    }
  }

  /** If every admitted call reports an outcome, the slots in use are exactly the running
      probes, so a half-open rejection means that some probe is still pending. */
  lemma RejectedWhileProbing(states: seq<System>, steps: seq<Step>, n: nat, now: int)
    requires Run(states, steps) && Start(states[0]) && n < |states| && NobodySilent(steps)
    requires states[n].b.state == HalfOpen
    ensures states[n].b.halfOpenActive == |Probes(states[n])|
    ensures !Before(states[n].b, now).1 ==> Probes(states[n]) != {}
  {
    SlotsAccounted(states, steps, n);
    NeverSilent(states, steps, n);
  }

  /** In general a half-open breaker rejects with no probe pending exactly when all its slots
      were left silently. */
  lemma RejectedWithoutProbe(states: seq<System>, steps: seq<Step>, n: nat, now: int)
    requires Run(states, steps) && Start(states[0]) && n < |states|
    requires states[n].b.state == HalfOpen
    ensures !Before(states[n].b, now).1 && Probes(states[n]) == {}
            <==> states[n].silent == states[n].b.halfOpenLimit
  {
    SlotsAccounted(states, steps, n);
  }

  // ----- Never again -----

  /** Some interleaving of steps leads from `s` to `t`. */
  ghost predicate Reaches(s: System, t: System) {
    exists states, steps :: Run(states, steps) && states[0] == s && states[|steps|] == t
  }

  lemma ReachesItself(s: System)
    ensures Reaches(s, s)
  {
    var states, steps: seq<Step> := [s], [];
    assert Run(states, steps) && states[|steps|] == s;
  }

  lemma ReachesNext(s: System, t: System, step: Step)
    requires Reaches(s, t) && Possible(t, step)
    ensures Reaches(s, Next(t, step))
  {
    hide Possible, Next;
    var states, steps :| Run(states, steps) && states[0] == s && states[|steps|] == t;
    var states', steps' := states + [Next(t, step)], steps + [step];
    assert Run(states', steps') && states'[|steps'|] == Next(t, step);
  }

  /** Some call can still be admitted, sooner or later. */
  ghost predicate CanAdmit(s: System) { exists t, now :: Reaches(s, t) && Before(t.b, now).1 }

  /** Every half-open slot was left silently and nobody is left to report. */
  predicate Stuck(s: System) {
    s.b.state == HalfOpen && s.inFlight == map[] && s.silent == s.b.halfOpenLimit
  }

  lemma {:induction false} StuckStays(states: seq<System>, steps: seq<Step>, n: nat)
    requires Run(states, steps) && n < |states| && Accounted(states[0]) && Stuck(states[0])
    ensures states[n] == states[0]
  {
    assert states[0].b.halfOpenActive == states[0].b.halfOpenLimit;
    if n > 0 {
      StuckStays(states, steps, n - 1);
      assert states[n] == Next(states[n - 1], steps[n - 1]);
    }
  }

  /** With calls in flight, one of them may report a success; otherwise a closed breaker
      admits at once, an open one after its interval, a half-open one into a free slot. */
  lemma AdmitsEventually(s: System)
    requires Accounted(s) && !Stuck(s)
    ensures CanAdmit(s)
  {
    ReachesItself(s);
    if s.inFlight != map[] {
      var call :| call in s.inFlight;
      ReachesNext(s, s, ReportOk(call));
      assert Before(Next(s, ReportOk(call)).b, 0).1;
    } else {
      assert Probes(s) == {};
      assert Before(s.b, s.b.openedAt + s.b.openInterval).1;
    }
  }

  /** A breaker never admits a call again, whatever happens, exactly when it is stuck: every
      half-open slot was left silently and nothing is in flight. */
  lemma StuckForever(s: System)
    requires Accounted(s)
    ensures !CanAdmit(s) <==> Stuck(s)
  {
    if Stuck(s) {
      forall t, now | Reaches(s, t)
        ensures !Before(t.b, now).1
      {
        var states, steps :| Run(states, steps) && states[0] == s && states[|steps|] == t;
        StuckStays(states, steps, |steps|);
      }
    } else {
      AdmitsEventually(s);
    }
  }

  /** One call comes in and fails, or comes in and is canceled in its backoff sleep. */
  lemma FailOne(s: System, t: System, now: int) returns (u: System)
    requires Reaches(s, t) && Valid(t.b) && t.b.state == Closed && t.inFlight == map[]
    ensures Reaches(s, u) && u.b == Failure(t.b, now) && u.inFlight == map[]
  {
    var entered := Next(t, Enter(0, now));
    ReachesNext(s, t, Enter(0, now));
    ReachesNext(s, entered, ReportFailed(0, now));
    u := Next(entered, ReportFailed(0, now));
    assert u.inFlight == map[];
  }

  lemma CancelOne(s: System, t: System, now: int) returns (u: System)
    requires Reaches(s, t) && Accounted(t) && t.b.state != Closed && t.inFlight == map[] && Before(t.b, now).1
    ensures Reaches(s, u) && Accounted(u) && u.b.state == HalfOpen && u.inFlight == map[]
    ensures u.silent == u.b.halfOpenActive && u.b.halfOpenLimit == t.b.halfOpenLimit
    ensures t.b.state == HalfOpen ==> u.silent == t.silent + 1
  {
    hide Reaches;
    var entered := Next(t, Enter(0, now));
    ReachesNext(s, t, Enter(0, now));
    ReachesNext(s, entered, Abandon(0));
    AccountedStep(t, Enter(0, now));
    AccountedStep(entered, Abandon(0));
    u := Next(entered, Abandon(0));
    assert u.inFlight == map[] && Probes(u) == {} && Probes(t) == {};
  }

  lemma {:induction false} FillSilently(s: System, t: System, now: int) returns (u: System)
    requires Reaches(s, t) && Accounted(t) && t.b.state == HalfOpen && t.inFlight == map[]
    ensures Reaches(s, u) && Accounted(u) && Stuck(u)
    decreases t.b.halfOpenLimit - t.silent
  {
    hide Reaches;
    assert Probes(t) == {};
    if t.silent == t.b.halfOpenLimit {
      u := t;
    } else {
      u := CancelOne(s, t, now);
      u := FillSilently(s, u, now);
    }
  }

  lemma {:induction false} FailUntilOpen(s: System, t: System, now: int) returns (u: System)
    requires Reaches(s, t) && Accounted(t) && t.b.state == Closed && t.inFlight == map[]
    ensures Reaches(s, u) && Accounted(u) && u.b.state == Open && u.inFlight == map[] && u.b.openedAt == now
    decreases t.b.failureLimit - t.b.consecutiveFail
  {
    hide Reaches;
    u := FailOne(s, t, now);
    if u.b.state == Closed {
      u := FailUntilOpen(s, u, now);
    }
  }

  /** Every breaker, with whatever limits, can get stuck: calls fail until it opens, and after
      the interval one probe after the other is canceled in its backoff sleep. */
  lemma StuckIsReachable(s: System, now: int) returns (t: System)
    requires Start(s)
    ensures Reaches(s, t) && Accounted(t) && Stuck(t)
  {
    hide Reaches;
    ReachesItself(s);
    var tripped := FailUntilOpen(s, s, now);
    var half := CancelOne(s, tripped, now + tripped.b.openInterval);
    t := FillSilently(s, half, now + tripped.b.openInterval);
  }

  // ----- Opening -----

  /** The failures reported since the last reported success, silent exits aside. */
  function FailuresSince(steps: seq<Step>, n: nat): nat
    requires n <= |steps|
  {
    if n == 0 then 0
    else
      match steps[n - 1]
      case ReportOk(_) => 0
      case ReportFailed(_, _) => FailuresSince(steps, n - 1) + 1
      case _ => FailuresSince(steps, n - 1)
  }

  /** When the last failure was reported. */
  function LastFailure(steps: seq<Step>, n: nat): int
    requires n <= |steps|
  {
    if n == 0 then 0
    else if steps[n - 1].ReportFailed? then steps[n - 1].now
    else LastFailure(steps, n - 1)
  }

  predicate Follows(b: Breaker, limit: int, interval: int, failures: nat, last: int) {
    && b.failureLimit == limit && b.openInterval == interval
    && (b.state == Closed ==> b.consecutiveFail == failures)
    && (b.state != Closed ==> limit <= failures)
    && (b.state == Open ==> b.openedAt == last)
  }

  lemma {:induction false} HistoryFollowed(states: seq<System>, steps: seq<Step>, n: nat)
    requires Run(states, steps) && Start(states[0]) && states[0].b.consecutiveFail == 0 && n < |states|
    ensures Follows(states[n].b, states[0].b.failureLimit, states[0].b.openInterval, FailuresSince(steps, n), LastFailure(steps, n))
  {
    if n > 0 {
      HistoryFollowed(states, steps, n - 1);
      SlotsAccounted(states, steps, n - 1);
      assert states[n] == Next(states[n - 1], steps[n - 1]);
    }
  }

  /** The breaker is closed exactly while fewer failures than its limit were reported since
      the last success, whichever calls reported them and in whatever order; a closed breaker
      admits everybody. */
  lemma ClosedIffFewFailures(states: seq<System>, steps: seq<Step>, n: nat, now: int)
    requires Run(states, steps) && Start(states[0]) && states[0].b.consecutiveFail == 0 && n < |states|
    ensures states[n].b.state == Closed <==> FailuresSince(steps, n) < states[0].b.failureLimit
    ensures FailuresSince(steps, n) < states[0].b.failureLimit ==> Before(states[n].b, now) == (states[n].b, true)
  {
    HistoryFollowed(states, steps, n);
    SlotsAccounted(states, steps, n);
  }

  /** An open breaker fails fast exactly until one interval after the last reported failure. */
  lemma OpenUntilInterval(states: seq<System>, steps: seq<Step>, n: nat, now: int)
    requires Run(states, steps) && Start(states[0]) && states[0].b.consecutiveFail == 0 && n < |states|
    requires states[n].b.state == Open
    ensures Before(states[n].b, now).1 <==> now - LastFailure(steps, n) >= states[0].b.openInterval
  {
    HistoryFollowed(states, steps, n);
    SlotsAccounted(states, steps, n);
  }

  // ----- The probing rate -----

  function StepTime(step: Step, otherwise: int): int {
    match step
    case Enter(_, now) => now
    case ReportFailed(_, now) => now
    case _ => otherwise
  }

  /** The clock after `n` steps, beginning at `start`. */
  function Clock(steps: seq<Step>, start: int, n: nat): int
    requires n <= |steps|
  {
    if n == 0 then start else StepTime(steps[n - 1], Clock(steps, start, n - 1))
  }

  predicate ClockForward(steps: seq<Step>, start: int) {
    forall i :: 0 <= i < |steps| ==> Clock(steps, start, i) <= Clock(steps, start, i + 1)
  }

  function Admitted(states: seq<System>, steps: seq<Step>, n: nat): nat
    requires |states| == |steps| + 1 && n <= |steps|
  {
    if n == 0 then 0
    else Admitted(states, steps, n - 1) + if steps[n - 1].Enter? && Before(states[n - 1].b, steps[n - 1].now).1 then 1 else 0
  }

  /** `rounds` half-open periods have begun since `start`, each at least an interval after
      the last, and each has admitted at most its limit. */
  predicate Paced(b: Breaker, b0: Breaker, start: int, now: int, rounds: nat, admitted: int) {
    && b.openInterval == b0.openInterval && b.halfOpenLimit == b0.halfOpenLimit
    && b.state != Closed && now >= start + rounds * b0.openInterval
    && (b.state == Open ==> b.openedAt >= start + rounds * b0.openInterval && admitted <= rounds * b0.halfOpenLimit)
    && (b.state == HalfOpen ==> rounds > 0 && admitted <= (rounds - 1) * b0.halfOpenLimit + b.halfOpenActive)
  }

  lemma PacedStep(s: System, step: Step, b0: Breaker, start: int, now: int, rounds: nat, admitted: int) returns (rounds': nat)
    requires Valid(s.b) && Valid(b0) && Possible(s, step) && !step.ReportOk? && StepTime(step, now) >= now
    requires Paced(s.b, b0, start, now, rounds, admitted)
    ensures Valid(Next(s, step).b)
    ensures var more := if step.Enter? && Before(s.b, step.now).1 then 1 else 0;
            Paced(Next(s, step).b, b0, start, StepTime(step, now), rounds', admitted + more)
  {
    rounds' := rounds;
    if step.Enter? && s.b.state == Open && Before(s.b, step.now).1 {
      rounds' := rounds + 1;
      NextTimes(rounds, b0.openInterval);
    } else if step.ReportFailed? && s.b.state == HalfOpen {
      NextTimes(rounds - 1, b0.halfOpenLimit);
    }
  }

  lemma {:induction false} PacedRun(states: seq<System>, steps: seq<Step>, start: int, n: nat) returns (rounds: nat)
    requires Run(states, steps) && Valid(states[0].b) && n <= |steps| && ClockForward(steps, start)
    requires states[0].b.state == Open && states[0].b.openedAt == start
    requires forall i :: 0 <= i < n ==> !steps[i].ReportOk?
    ensures Valid(states[n].b)
    ensures Paced(states[n].b, states[0].b, start, Clock(steps, start, n), rounds, Admitted(states, steps, n))
  {
    if n == 0 {
      rounds := 0;
    } else {
      var before := PacedRun(states, steps, start, n - 1);
      assert states[n] == Next(states[n - 1], steps[n - 1]) && Clock(steps, start, n - 1) <= Clock(steps, start, n);
      rounds := PacedStep(states[n - 1], steps[n - 1], states[0].b, start, Clock(steps, start, n - 1), before, Admitted(states, steps, n - 1));
    }
  }

  /** With no success reported since the breaker opened, at most `halfOpenLimit` calls are
      admitted for every full interval that has passed, whatever late failures come in. */
  lemma AdmissionRate(states: seq<System>, steps: seq<Step>, start: int, period: nat)
    requires Run(states, steps) && Valid(states[0].b) && ClockForward(steps, start)
    requires states[0].b.state == Open && states[0].b.openedAt == start
    requires forall i :: 0 <= i < |steps| ==> !steps[i].ReportOk?
    requires Clock(steps, start, |steps|) <= start + period
    ensures Admitted(states, steps, |steps|) <= period / states[0].b.openInterval * states[0].b.halfOpenLimit
  {
    hide ClockForward, Admitted, Clock, Paced;
    var b0 := states[0].b;
    var rounds := PacedRun(states, steps, start, |steps|);
    PacedBound(states[|steps|].b, b0, start, Clock(steps, start, |steps|), rounds, Admitted(states, steps, |steps|));
    AtMostQuotient(rounds, period, b0.openInterval);
    TimesMonotone(rounds, period / b0.openInterval, b0.halfOpenLimit);
  }

  lemma PacedBound(b: Breaker, b0: Breaker, start: int, now: int, rounds: nat, admitted: int)
    requires Valid(b) && Paced(b, b0, start, now, rounds, admitted)
    ensures admitted <= rounds * b0.halfOpenLimit && rounds * b0.openInterval <= now - start
  {
    NextTimes(rounds - 1, b0.halfOpenLimit);
  }

  /** In a window that begins at `from`: `rounds` half-open periods were seen, the first
      perhaps begun before it, each later one at least an interval after the one before. */
  predicate PacedWithin(b: Breaker, b0: Breaker, from: int, to: int, now: int, rounds: nat, admitted: int) {
    && b.openInterval == b0.openInterval && b.halfOpenLimit == b0.halfOpenLimit && b.state != Closed
    && (b.state == Open ==>
          && admitted <= rounds * b0.halfOpenLimit
          && (rounds > 0 ==> b.openedAt >= from + (rounds - 1) * b0.openInterval))
    && (b.state == HalfOpen ==> rounds > 0 && admitted <= (rounds - 1) * b0.halfOpenLimit + b.halfOpenActive)
    && (rounds > 1 ==> from + (rounds - 1) * b0.openInterval <= now && from + (rounds - 1) * b0.openInterval <= to)
  }

  predicate InWindow(step: Step, from: int, to: int) {
    step.Enter? || step.ReportFailed? ==> from <= step.now <= to
  }

  lemma WindowStep(s: System, step: Step, b0: Breaker, from: int, to: int, now: int, rounds: nat, admitted: int) returns (rounds': nat)
    requires Valid(s.b) && Valid(b0) && Possible(s, step) && !step.ReportOk? && StepTime(step, now) >= now
    requires PacedWithin(s.b, b0, from, to, now, rounds, admitted) && InWindow(step, from, to)
    ensures Valid(Next(s, step).b)
    ensures var more := if step.Enter? && Before(s.b, step.now).1 then 1 else 0;
            PacedWithin(Next(s, step).b, b0, from, to, StepTime(step, now), rounds', admitted + more)
  {
    rounds' := rounds;
    if step.Enter? && s.b.state == Open && Before(s.b, step.now).1 {
      rounds' := rounds + 1;
      NextTimes(rounds - 1, b0.openInterval);
    } else if step.ReportFailed? && s.b.state == HalfOpen {
      NextTimes(rounds - 1, b0.halfOpenLimit);
    }
  }

  lemma {:induction false} WindowRun(states: seq<System>, steps: seq<Step>, start: int, m: nat, n: nat, from: int, to: int) returns (rounds: nat)
    requires Run(states, steps) && m <= n <= |steps| && ClockForward(steps, start)
    requires Valid(states[m].b) && states[m].b.state != Closed
    requires forall i :: m <= i < n ==> !steps[i].ReportOk? && InWindow(steps[i], from, to)
    ensures Valid(states[n].b)
    ensures PacedWithin(states[n].b, states[m].b, from, to, Clock(steps, start, n), rounds, Admitted(states, steps, n) - Admitted(states, steps, m))
    decreases n
  {
    hide PacedWithin, Next, Possible, Before, Valid;
    AdmittedGrows(states, steps, m, n);
    if n == m {
      rounds := WindowOpens(states[m].b, from, to, Clock(steps, start, m));
    } else {
      var before := WindowRun(states, steps, start, m, n - 1, from, to);
      var s, step, now := states[n - 1], steps[n - 1], Clock(steps, start, n - 1);
      assert states[n] == Next(s, step) && now <= Clock(steps, start, n);
      rounds := WindowStep(s, step, states[m].b, from, to, now, before, Admitted(states, steps, n - 1) - Admitted(states, steps, m));
    }
  }

  lemma WindowOpens(b: Breaker, from: int, to: int, now: int) returns (rounds: nat)
    requires Valid(b) && b.state != Closed
    ensures PacedWithin(b, b, from, to, now, rounds, 0)
  {
    rounds := if b.state == HalfOpen then 1 else 0;
  }

  lemma {:induction false} AdmittedGrows(states: seq<System>, steps: seq<Step>, m: nat, n: nat)
    requires |states| == |steps| + 1 && m <= n <= |steps|
    ensures Admitted(states, steps, m) <= Admitted(states, steps, n)
  {
    if m < n {
      AdmittedGrows(states, steps, m, n - 1);
    }
  }

  /** In any window of time in which the breaker is not closed and no success is reported, it
      admits at most `halfOpenLimit` calls for every full interval, and as many again. */
  lemma AdmissionRateInWindow(states: seq<System>, steps: seq<Step>, start: int, m: nat, n: nat, from: int, period: nat)
    requires Run(states, steps) && m <= n <= |steps| && ClockForward(steps, start)
    requires Valid(states[m].b) && states[m].b.state != Closed
    requires forall i :: m <= i < n ==> !steps[i].ReportOk? && InWindow(steps[i], from, from + period)
    ensures Admitted(states, steps, n) - Admitted(states, steps, m)
            <= (period / states[m].b.openInterval + 1) * states[m].b.halfOpenLimit
  {
    hide ClockForward, Admitted, Clock, PacedWithin;
    var b0 := states[m].b;
    AdmittedGrows(states, steps, m, n);
    var rounds := WindowRun(states, steps, start, m, n, from, from + period);
    PacedWithinBound(states[n].b, b0, from, period, Clock(steps, start, n), rounds, Admitted(states, steps, n) - Admitted(states, steps, m));
  }

  lemma PacedWithinBound(b: Breaker, b0: Breaker, from: int, period: nat, now: int, rounds: nat, admitted: int)
    requires Valid(b) && Valid(b0) && PacedWithin(b, b0, from, from + period, now, rounds, admitted)
    ensures admitted <= (period / b0.openInterval + 1) * b0.halfOpenLimit
  {
    hide Valid;
    assert b0.openInterval > 0 && b0.halfOpenLimit > 0 && b.halfOpenActive <= b0.halfOpenLimit by { ActiveWithinLimit(b, b0); }
    NextTimes(rounds - 1, b0.halfOpenLimit);
    FewRounds(rounds, period, b0.openInterval);
    TimesMonotone(rounds, period / b0.openInterval + 1, b0.halfOpenLimit);
  }

  lemma ActiveWithinLimit(b: Breaker, b0: Breaker)
    requires Valid(b) && Valid(b0) && b.halfOpenLimit == b0.halfOpenLimit
    ensures b0.openInterval > 0 && b0.halfOpenLimit > 0 && b.halfOpenActive <= b0.halfOpenLimit
  {
  }

  lemma FewRounds(rounds: nat, period: nat, interval: int)
    requires interval > 0 && (rounds > 1 ==> (rounds - 1) * interval <= period)
    ensures rounds <= period / interval + 1
  {
    if rounds > 1 {
      AtMostQuotient(rounds - 1, period, interval);
    } else {
      AtMostQuotient(0, period, interval);
    }
  }
}
