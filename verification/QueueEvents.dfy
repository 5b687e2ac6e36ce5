/** Runs of the queue: the operations as events on one clock, and what an event can do to
    a single job. */
module QueueEvents {
  import opened Common
  import opened Text
  import opened Jobs
  import opened QueueSpec

  datatype Op =
    | EnqueueOp(job: Job)
    | EnqueueUniqueOp(job: Job)
    | RecordDeadLetterOp(job: Job, err: Option<string>, recordID: string)
    | ExportOp  // also stands for the reading operations, which reap in the same way
    | RestoreOp(state: QueueState, exportedAt: nat)
    | LeaseReadyOp(limit: int, maxConcurrency: int, ttl: int)
    | LeaseJobOp(id: string, maxConcurrency: int, ttl: int)
    | CompleteOp(id: string)
    | PauseOp(id: string)
    | ResumeOp(id: string)
    | CancelOp(id: string)
    | CancelCorrelationOp(correlationID: string)
    | FailOp(id: string, err: Option<string>, backoff: int, recordID: string)
    | FailNonRetryableOp(id: string, err: Option<string>, recordID: string)
    | ReplayOp(recordID: string, correlationID: string, payload: Option<string>, newID: string)

  datatype Event = Event(now: int, op: Op)

  function Apply(s: QueueState, e: Event): QueueState {
    match e.op
    case EnqueueOp(job) => Enqueue(s, job).0
    case EnqueueUniqueOp(job) => EnqueueUnique(s, job).0
    case RecordDeadLetterOp(job, err, recordID) => RecordDeadLetter(s, job, err, e.now, recordID)
    case ExportOp => Observe(s, e.now)
    case RestoreOp(state, _) => state
    case LeaseReadyOp(limit, maxConcurrency, ttl) => LeaseReady(s, e.now, limit, maxConcurrency, ttl).0
    case LeaseJobOp(id, maxConcurrency, ttl) => LeaseJob(s, id, e.now, maxConcurrency, ttl).0
    case CompleteOp(id) => Complete(s, id).0
    case PauseOp(id) => Pause(s, id).0
    case ResumeOp(id) => Resume(s, id, e.now).0
    case CancelOp(id) => Cancel(s, id).0
    case CancelCorrelationOp(c) => CancelByCorrelation(s, c).0
    case FailOp(id, err, backoff, recordID) => Fail(s, id, err, e.now, backoff, recordID).0
    case FailNonRetryableOp(id, err, recordID) => FailNonRetryable(s, id, err, e.now, recordID).0
    case ReplayOp(recordID, c, payload, newID) => ReplayDeadLetter(s, recordID, c, e.now, payload, e.now, newID).0
  }

  /** What the environment owes: enqueued jobs come from `NewQueueJob`, generated
      identifiers are new, and a restored state is one the queue itself exported. */
  predicate Lawful(states: seq<QueueState>, events: seq<Event>, i: nat)
    requires i < |events| && |states| == |events| + 1
  {
    var s := states[i];
    match events[i].op
    case EnqueueOp(job) => Brandnew(job) && IndexOf(s.jobs, job.id) < 0
    case EnqueueUniqueOp(job) => Brandnew(job) && IndexOf(s.jobs, job.id) < 0
    case RestoreOp(state, k) => 0 < k <= i && events[k - 1].op == ExportOp && states[k] == state
    case ReplayOp(_, _, _, newID) => IndexOf(s.jobs, newID) < 0
    case _ => true
  }

  /** A run from the empty queue on a clock that never goes back. */
  predicate Run(states: seq<QueueState>, events: seq<Event>) {
    && |states| == |events| + 1
    && states[0] == EMPTY
    && (forall i :: 0 <= i < |events| ==> states[i + 1] == Apply(states[i], events[i]) && Lawful(states, events, i))
    && (forall i, j :: 0 <= i <= j < |events| ==> events[i].now <= events[j].now)
  }

  /** A restore goes back to an earlier state of the run. */
  lemma RestoreGoesBack(states: seq<QueueState>, events: seq<Event>, i: nat)
    requires Run(states, events) && i < |events| && events[i].op.RestoreOp?
    ensures 0 < events[i].op.exportedAt <= i && states[i + 1] == states[events[i].op.exportedAt]
  {
    assert Lawful(states, events, i);
  }

  lemma EventApplies(states: seq<QueueState>, events: seq<Event>, i: nat)
    requires Run(states, events) && i < |events|
    ensures states[i + 1] == Apply(states[i], events[i])
    ensures events[i].op.EnqueueOp? || events[i].op.EnqueueUniqueOp? ==> Brandnew(events[i].op.job)
  {
    assert Lawful(states, events, i);
  }

  // ----- Where a state comes from -----

  /** State `n` stems from state `a`, and every event on the way satisfies `ok`. A restore
      takes the way back to the export; what happened in between it undoes, and that is not
      on the way. */
  predicate Throughout(states: seq<QueueState>, events: seq<Event>, a: nat, n: nat, ok: (QueueState, Event) -> bool)
    requires |states| == |events| + 1 && n <= |events|
  {
    n == a ||
    (a < n &&
     match events[n - 1].op
     case RestoreOp(_, k) => a <= k < n && Throughout(states, events, a, k, ok)
     case _ => ok(states[n - 1], events[n - 1]) && Throughout(states, events, a, n - 1, ok))
  }

  predicate Stems(states: seq<QueueState>, events: seq<Event>, a: nat, n: nat)
    requires |states| == |events| + 1 && n <= |events|
  {
    Throughout(states, events, a, n, (s, e) => true)
  }

  /** In particular it does when no restore goes back behind `a` and all events in between
      are fine. */
  lemma {:induction false} LaterExportsOnly(states: seq<QueueState>, events: seq<Event>, a: nat, n: nat, ok: (QueueState, Event) -> bool)
    requires Run(states, events) && a <= n <= |events|
    requires forall i :: a <= i < n && events[i].op.RestoreOp? ==> events[i].op.exportedAt >= a
    requires forall i :: a <= i < n && !events[i].op.RestoreOp? ==> ok(states[i], events[i])
    ensures Throughout(states, events, a, n, ok)
  {
    hide Run, Apply;
    if a < n {
      if events[n - 1].op.RestoreOp? {
        RestoreGoesBack(states, events, n - 1);
        LaterExportsOnly(states, events, a, events[n - 1].op.exportedAt, ok);
      } else {
        LaterExportsOnly(states, events, a, n - 1, ok);
      }
    }
  }

  // ----- One job in one event -----

  /** What event `e` may make of a job that was already queued. */
  predicate JobStep(j: Job, j': Job, e: Event) {
    match e.op
    case ExportOp => j' == Reap(j, e.now)
    case LeaseReadyOp(_, _, ttl) => LeaseStep(j, j', e.now, ttl)
    case LeaseJobOp(id, _, ttl) => LeaseStep(j, j', e.now, ttl) && (j' == Reap(j, e.now) || j.id == id)
    case CompleteOp(id) => j' == j || (Touched(j, id) && j' == j.(status := Succeeded, lease := None, lastError := ""))
    case PauseOp(id) => j' == j || (Touched(j, id) && j' == j.(status := Paused, lease := None))
    case ResumeOp(id) => j' == j || (j.id == id && j.status == Paused && j' == j.(status := Pending, notBefore := e.now, lease := None))
    case CancelOp(id) => j' == j || (Touched(j, id) && j' == CanceledJob(j))
    case CancelCorrelationOp(_) => j' == j || (!Terminal(j.status) && j' == CanceledJob(j))
    case FailOp(id, err, backoff, _) => j' == j || (Touched(j, id) && j' == FailOnce(j, err, e.now, backoff))
    case FailNonRetryableOp(id, err, _) => j' == j || (Touched(j, id) && j' == FailForGood(j, err, e.now))
    case RestoreOp(_, _) => true
    case _ => j' == j
  }

  predicate Touched(j: Job, id: string) { j.id == id && !Terminal(j.status) }

  predicate LeaseStep(j: Job, j': Job, now: int, ttl: int) {
    var r := Reap(j, now);
    j' == r || (Ready(r, now) && j' == Grant(r, now, ttl))
  }

  /** Every event but a restore keeps each job at its place, does one `JobStep` to it, and
      adds at most one job, new and untouched, at the end. */
  lemma Steps(s: QueueState, e: Event)
    requires !e.op.RestoreOp?
    ensures var s' := Apply(s, e);
            && |s.jobs| <= |s'.jobs| <= |s.jobs| + 1
            && (forall k :: 0 <= k < |s.jobs| ==> JobStep(s.jobs[k], s'.jobs[k], e))
            && (|s'.jobs| == |s.jobs| + 1 ==>
                  var added := s'.jobs[|s.jobs|];
                  match e.op
                  case EnqueueOp(job) => added == job
                  case EnqueueUniqueOp(job) => added == job && IndexOfActive(s.jobs, job.dedupeKey) < 0
                  case ReplayOp(_, _, _, newID) =>
                    added.id == newID && Brandnew(added) && IndexOfActive(s.jobs, added.dedupeKey) < 0
                  case _ => false)
  {
    hide Trim, Select, Wrap64, Pow2, IndexOfRecord;
    match e.op {
      case ReplayOp(recordID, c, payload, newID) => ReplaySteps(s, e);
      case CancelCorrelationOp(c) =>
      case LeaseReadyOp(limit, maxConcurrency, ttl) =>
      case _ =>
    }
  }

  lemma ReplaySteps(s: QueueState, e: Event)
    requires e.op.ReplayOp?
    ensures var s' := Apply(s, e);
            && (s'.jobs == s.jobs
                || (|s'.jobs| == |s.jobs| + 1 && s'.jobs[..|s.jobs|] == s.jobs
                    && var added := s'.jobs[|s.jobs|];
                       added.id == e.op.newID && Brandnew(added) && IndexOfActive(s.jobs, added.dedupeKey) < 0))
  {
    hide ReplayDeadLetter, Brandnew, IndexOfActive;
    ReplayShape(s, e.op.recordID, e.op.correlationID, e.now, e.op.payload, e.now, e.op.newID);
  }

  lemma ReplayedIsBrandnew(r: DeadLetterRecord, correlationID: string, payload: Option<string>, clock: int, newID: string)
    ensures var job := ReplayedJob(r, correlationID, payload, clock, newID);
            job.Ok? ==> Brandnew(job.value) && job.value.id == newID
  {
    hide NewQueueJob;
    NewQueueJobIsBrandnew(ReplayInput(r, correlationID), payload, clock, newID);
  }

  lemma ReplayShape(s: QueueState, recordID: string, correlationID: string, now: int,
                    payload: Option<string>, clock: int, newID: string)
    ensures var s' := ReplayDeadLetter(s, recordID, correlationID, now, payload, clock, newID).0;
            && (s'.jobs == s.jobs
                || (|s'.jobs| == |s.jobs| + 1 && s'.jobs[..|s.jobs|] == s.jobs
                    && var added := s'.jobs[|s.jobs|];
                       added.id == newID && Brandnew(added) && IndexOfActive(s.jobs, added.dedupeKey) < 0))
  {
    hide ReplayedJob, Brandnew, SameWork, IndexOfRecord;
    var i := IndexOfRecord(s.deadLetters, recordID);
    if i >= 0 {
      ReplayedIsBrandnew(s.deadLetters[i].(replayedAt := Some(now)), correlationID, payload, clock, newID);
    }
  }
}
