/** The retry loops of the REST and GraphQL clients. The network is an arbitrary sequence of
    attempt results, and each backoff sleep either completes or is canceled. */
module Client {
  import opened Circuit

  const MAX_ATTEMPTS := 3

  /** What one admitted call tells the breaker. */
  datatype Report = Silent | Worked | Broke

  predicate IsCircuitFailureStatus(status: nat) { status == 0 || status == 429 || status >= 500 }

  function Observe(status: nat): Report {
    if IsCircuitFailureStatus(status) then Broke else Worked
  }

  /** What an attempt means for the loop: an end with its report, or another try. */
  datatype Verdict = Settled(report: Report) | TryAgain(status: nat)

  /** `k` is the attempt that ended the loop: every earlier one asked for another try and
      slept through; this one settled, or was the last, or its sleep was canceled. */
  predicate EndsAt(verdicts: seq<Verdict>, canceled: seq<bool>, k: nat, report: Report)
    requires |verdicts| == MAX_ATTEMPTS && |canceled| == MAX_ATTEMPTS - 1
  {
    && k < MAX_ATTEMPTS
    && (forall i :: 0 <= i < k ==> verdicts[i].TryAgain? && !canceled[i])
    && match verdicts[k]
       case Settled(r) => report == r
       case TryAgain(status) =>
         if k == MAX_ATTEMPTS - 1 then report == Observe(status) else canceled[k] && report == Silent
  }

  /** The end of the loop and its report are determined by the attempts and sleeps, and a
      call stays silent exactly when a sleep of its was canceled. */
  lemma EndIsUnique(verdicts: seq<Verdict>, canceled: seq<bool>, k: nat, report: Report, k': nat, report': Report)
    requires |verdicts| == MAX_ATTEMPTS && |canceled| == MAX_ATTEMPTS - 1
    requires forall i :: 0 <= i < |verdicts| ==> verdicts[i] != Settled(Silent)
    requires EndsAt(verdicts, canceled, k, report) && EndsAt(verdicts, canceled, k', report')
    ensures k == k' && report == report'
    ensures report == Silent <==> k < MAX_ATTEMPTS - 1 && canceled[k] && verdicts[k].TryAgain?
    ensures (forall i :: 0 <= i < |verdicts| ==> verdicts[i].TryAgain?) && !canceled[0] && !canceled[1] ==> k == 2
  {
    if k < k' {
      assert false;
    } else if k' < k {
      assert false;
    }
  }

  /** A provider failure: no answer at all, too many requests, or a server error. */
  predicate ProviderFailed(status: nat) { status == 0 || status == 429 || 500 <= status }

  /** What a call of at most three attempts reports. */
  predicate Ends(made: nat, retryable: bool, status: nat, canceled: seq<bool>, report: Report)
    requires |canceled| == 2
  {
    if !retryable || made == 3 then report == (if ProviderFailed(status) then Broke else Worked)
    else 0 < made < 3 && canceled[made - 1] && report == Silent
  }

  /** The breaker after a call reported. */
  function After(b: Breaker, report: Report, now: int): Breaker {
    match report
    case Silent => b
    case Worked => Success(b)
    case Broke => Failure(b, now)
  }

  /** How the call leaves the system of concurrent calls. */
  function Leaving(call: nat, report: Report, now: int): Step {
    match report
    case Silent => Abandon(call)
    case Worked => ReportOk(call)
    case Broke => ReportFailed(call, now)
  }

  predicate Leaves(step: Step, call: nat) {
    step == ReportOk(call) || step == Abandon(call) || (step.ReportFailed? && step.call == call)
  }

  lemma {:induction false} StaysInFlight(states: seq<System>, steps: seq<Step>, a: nat, i: nat, call: nat)
    requires Run(states, steps) && a < i <= |steps| && steps[a].Enter? && steps[a].call == call && Before(states[a].b, steps[a].now).1
    requires forall j :: a < j < i ==> !Leaves(steps[j], call)
    ensures call in states[i].inFlight && states[i].inFlight[call] == states[a + 1].inFlight[call]
    decreases i
  {
    hide Before, Success, Failure;
    var s := states[i - 1];
    assert Possible(s, steps[i - 1]) && states[i] == Next(s, steps[i - 1]);
    if i > a + 1 {
      StaysInFlight(states, steps, a, i - 1, call);
    }
  }

  /** A whole call among others: it enters, others enter, report and leave as they like while
      it tries and sleeps, and it leaves by the report that its loop ends with. It is in flight
      all that time; its report acts on the breaker as the others left it; it is silent exactly
      when a sleep of it was canceled, and then a half-open slot stays taken exactly when the
      period that admitted it is still running. With nobody in between, the breaker ends as
      the contracts of `Do` and `QueryJSON` say. */
  lemma CallAmongOthers(states: seq<System>, steps: seq<Step>, a: nat, b: nat, call: nat, now: int, later: int,
                        verdicts: seq<Verdict>, canceled: seq<bool>, k: nat, report: Report)
    requires Run(states, steps) && a < b < |steps|
    requires steps[a] == Enter(call, now) && Before(states[a].b, now).1
    requires forall i :: a < i < b ==> !Leaves(steps[i], call)
    requires steps[b] == Leaving(call, report, later)
    requires |verdicts| == MAX_ATTEMPTS && |canceled| == MAX_ATTEMPTS - 1
    requires forall i :: 0 <= i < |verdicts| ==> verdicts[i] != Settled(Silent)
    requires EndsAt(verdicts, canceled, k, report)
    ensures states[a + 1].b == Before(states[a].b, now).0
    ensures forall i :: a < i <= b ==> call in states[i].inFlight
    ensures states[b + 1].b == After(states[b].b, report, later) && call !in states[b + 1].inFlight
    ensures var silenced := k < MAX_ATTEMPTS - 1 && canceled[k] && verdicts[k].TryAgain?;
            var slotLost := silenced && states[b].b.state == HalfOpen && states[a + 1].inFlight[call] == states[b].epoch;
            && (report == Silent <==> silenced)
            && states[b + 1].silent == states[b].silent + if slotLost then 1 else 0
    ensures b == a + 1 ==> states[b + 1].b == After(Before(states[a].b, now).0, report, later)
  {
    hide Before, Success, Failure;
    EndIsUnique(verdicts, canceled, k, report, k, report);
    forall i | a < i <= b
      ensures call in states[i].inFlight && states[i].inFlight[call] == states[a + 1].inFlight[call]
    {
      StaysInFlight(states, steps, a, i, call);
    }
    assert states[a + 1] == Next(states[a], steps[a]) && states[b + 1] == Next(states[b], steps[b]);
  }

  // ----- REST -----

  datatype RestAttempt = Answered | Refused(status: nat, retry: bool)

  function RestVerdict(a: RestAttempt): Verdict {
    match a
    case Answered => Settled(Worked)
    case Refused(status, retry) => if retry then TryAgain(status) else Settled(Observe(status))
  }

  function RestVerdicts(attempts: seq<RestAttempt>): (r: seq<Verdict>)
    ensures |r| == |attempts| && forall i :: 0 <= i < |r| ==> r[i] == RestVerdict(attempts[i])
  {
    seq(|attempts|, i requires 0 <= i < |attempts| => RestVerdict(attempts[i]))
  }

  class RESTClient {
    const circuit: CircuitBreaker

    constructor (circuit: CircuitBreaker)
      ensures this.circuit == circuit
    {
      this.circuit := circuit;
    }

    /** `made` counts the attempts; `now` is the clock at entry, `later` at the report. */
    method Do(attempts: seq<RestAttempt>, canceled: seq<bool>, now: int, later: int)
      returns (admitted: bool, made: nat, report: Report)
      requires |attempts| == MAX_ATTEMPTS && |canceled| == MAX_ATTEMPTS - 1
      modifies circuit
      ensures admitted == Before(old(circuit.Value()), now).1
      ensures !admitted ==> made == 0 && report == Silent
      ensures admitted ==> made > 0 && EndsAt(RestVerdicts(attempts), canceled, made - 1, report)
      ensures admitted ==>
                && 1 <= made <= 3
                && (forall i :: 0 <= i < made - 1 ==> attempts[i].Refused? && attempts[i].retry && !canceled[i])
                && match attempts[made - 1]
                   case Answered => report == Worked
                   case Refused(status, retry) => Ends(made, retry, status, canceled, report)
      ensures circuit.Value() == After(Before(old(circuit.Value()), now).0, report, later)
    {
      made, report := 0, Silent;
      admitted := circuit.BeforeCall(now);
      if !admitted {
        return;
      }
      label entered:
      var lastStatus := 0;
      while made < MAX_ATTEMPTS
        invariant 0 <= made <= MAX_ATTEMPTS && report == Silent
        invariant circuit.Value() == old@entered(circuit.Value())
        invariant forall i :: 0 <= i < made ==> RestVerdict(attempts[i]).TryAgain?
        invariant forall i :: 0 <= i < made && i < MAX_ATTEMPTS - 1 ==> !canceled[i]
        invariant made > 0 ==> RestVerdict(attempts[made - 1]) == TryAgain(lastStatus)
      {
        var attempt := attempts[made];
        made := made + 1;
        if attempt.Answered? {
          circuit.ReportSuccess();
          report := Worked;
          return;
        }
        lastStatus := attempt.status;
        if !attempt.retry {
          report := ObserveCircuitResult(lastStatus, later);
          return;
        }
        if made == MAX_ATTEMPTS {
          break;
        }
        if canceled[made - 1] {
          return;
        }
      }
      report := ObserveCircuitResult(lastStatus, later);
    }

    method ObserveCircuitResult(status: nat, now: int) returns (report: Report)
      modifies circuit
      ensures report == Observe(status) && circuit.Value() == After(old(circuit.Value()), report, now)
      ensures report == if ProviderFailed(status) then Broke else Worked
    {
      if IsCircuitFailureStatus(status) {
        circuit.ReportFailure(now);
        return Broke;
      }
      if status > 0 {
        circuit.ReportSuccess();
      }
      return Worked;
    }
  }

  // ----- GraphQL -----

  /** A response body that cannot be decoded, a rate limit reported inside a successful
      response, and the refusals of the transport. */
  datatype GraphQLAttempt =
    | Data
    | BadBody(status: nat)
    | RateLimited(status: nat)
    | Rejected(status: nat, retry: bool)

  function GraphQLVerdict(a: GraphQLAttempt): Verdict {
    match a
    case Data => Settled(Worked)
    case BadBody(status) => Settled(Observe(status))
    case RateLimited(status) => TryAgain(status)
    case Rejected(status, retry) => if retry then TryAgain(status) else Settled(Observe(status))
  }

  function GraphQLVerdicts(attempts: seq<GraphQLAttempt>): (r: seq<Verdict>)
    ensures |r| == |attempts| && forall i :: 0 <= i < |r| ==> r[i] == GraphQLVerdict(attempts[i])
  {
    seq(|attempts|, i requires 0 <= i < |attempts| => GraphQLVerdict(attempts[i]))
  }

  class GraphQLClient {
    const circuit: CircuitBreaker

    constructor (circuit: CircuitBreaker)
      ensures this.circuit == circuit
    {
      this.circuit := circuit;
    }

    method QueryJSON(attempts: seq<GraphQLAttempt>, canceled: seq<bool>, now: int, later: int)
      returns (admitted: bool, made: nat, report: Report)
      requires |attempts| == MAX_ATTEMPTS && |canceled| == MAX_ATTEMPTS - 1
      modifies circuit
      ensures admitted == Before(old(circuit.Value()), now).1
      ensures !admitted ==> made == 0 && report == Silent
      ensures admitted ==> made > 0 && EndsAt(GraphQLVerdicts(attempts), canceled, made - 1, report)
      ensures admitted ==>
                && 1 <= made <= 3
                && (forall i :: 0 <= i < made - 1 ==>
                      (attempts[i].RateLimited? || (attempts[i].Rejected? && attempts[i].retry)) && !canceled[i])
                && match attempts[made - 1]
                   case Data => report == Worked
                   case BadBody(status) => Ends(made, false, status, canceled, report)
                   case RateLimited(status) => Ends(made, true, status, canceled, report)
                   case Rejected(status, retry) => Ends(made, retry, status, canceled, report)
      ensures circuit.Value() == After(Before(old(circuit.Value()), now).0, report, later)
    {
      made, report := 0, Silent;
      admitted := circuit.BeforeCall(now);
      if !admitted {
        return;
      }
      label entered:
      var lastStatus := 0;
      while made < MAX_ATTEMPTS
        invariant 0 <= made <= MAX_ATTEMPTS && report == Silent
        invariant circuit.Value() == old@entered(circuit.Value())
        invariant forall i :: 0 <= i < made ==> GraphQLVerdict(attempts[i]).TryAgain?
        invariant forall i :: 0 <= i < made && i < MAX_ATTEMPTS - 1 ==> !canceled[i]
        invariant made > 0 ==> GraphQLVerdict(attempts[made - 1]) == TryAgain(lastStatus)
      {
        var attempt := attempts[made];
        made := made + 1;
        if attempt.Data? {
          circuit.ReportSuccess();
          report := Worked;
          return;
        }
        lastStatus := attempt.status;
        if attempt.BadBody? || (attempt.Rejected? && !attempt.retry) {
          report := ObserveCircuitResult(lastStatus, later);
          return;
        }
        if made == MAX_ATTEMPTS {
          break;
        }
        if canceled[made - 1] {
          return;
        }
      }
      report := ObserveCircuitResult(lastStatus, later);
    }

    method ObserveCircuitResult(status: nat, now: int) returns (report: Report)
      modifies circuit
      ensures report == Observe(status) && circuit.Value() == After(old(circuit.Value()), report, now)
      ensures report == if ProviderFailed(status) then Broke else Worked
    {
      if IsCircuitFailureStatus(status) {
        circuit.ReportFailure(now);
        return Broke;
      }
      if status > 0 {
        circuit.ReportSuccess();
      }
      return Worked;
    }
  }
}
