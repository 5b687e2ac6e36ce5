/** The job queue as a value: what each operation makes of the whole state. */
module QueueSpec {
  import opened Common
  import opened Text
  import opened Jobs

  datatype QueueState = QueueState(
    jobs: seq<Job>, deadLetters: seq<DeadLetterRecord>,
    retryCount: int, failureCount: int, replayCount: int)

  const EMPTY := QueueState([], [], 0, 0, 0)

  // ----- Looking jobs up -----

  function IndexOf(jobs: seq<Job>, id: string): (i: int)
    ensures -1 <= i < |jobs|
    ensures i >= 0 ==> jobs[i].id == id && forall k :: 0 <= k < i ==> jobs[k].id != id
    ensures i < 0 ==> forall k :: 0 <= k < |jobs| ==> jobs[k].id != id
  {
    if jobs == [] then -1
    else
      var i := IndexOf(jobs[..|jobs| - 1], id);
      if i >= 0 then i else if jobs[|jobs| - 1].id == id then |jobs| - 1 else -1
  }

  function IndexOfRecord(records: seq<DeadLetterRecord>, id: string): (i: int)
    ensures -1 <= i < |records|
    ensures i >= 0 ==> records[i].id == id && forall k :: 0 <= k < i ==> records[k].id != id
    ensures i < 0 ==> forall k :: 0 <= k < |records| ==> records[k].id != id
  {
    if records == [] then -1
    else
      var i := IndexOfRecord(records[..|records| - 1], id);
      if i >= 0 then i else if records[|records| - 1].id == id then |records| - 1 else -1
  }

  predicate SameWork(j: Job, key: string) { key != "" && j.dedupeKey == key && Active(j.status) }

  /** The first active job holding the key; an empty key is held by nobody. */
  function IndexOfActive(jobs: seq<Job>, key: string): (i: int)
    ensures -1 <= i < |jobs|
    ensures i >= 0 ==> SameWork(jobs[i], key) && forall k :: 0 <= k < i ==> !SameWork(jobs[k], key)
    ensures i < 0 ==> forall k :: 0 <= k < |jobs| ==> !SameWork(jobs[k], key)
  {
    if jobs == [] then -1
    else
      var i := IndexOfActive(jobs[..|jobs| - 1], key);
      if i >= 0 then i else if SameWork(jobs[|jobs| - 1], key) then |jobs| - 1 else -1
  }

  /** The jobs satisfying `p`, in queue order. */
  function Select(jobs: seq<Job>, p: Job -> bool): (r: seq<Job>)
    ensures |r| <= |jobs|
    ensures forall j :: j in r <==> j in jobs && p(j)
  {
    if jobs == [] then []
    else Select(jobs[..|jobs| - 1], p) + (if p(jobs[|jobs| - 1]) then [jobs[|jobs| - 1]] else [])
  }

  function Map(jobs: seq<Job>, f: Job -> Job): (r: seq<Job>)
    ensures |r| == |jobs|
    ensures forall i :: 0 <= i < |jobs| ==> r[i] == f(jobs[i])
  {
    seq(|jobs|, i requires 0 <= i < |jobs| => f(jobs[i]))
  }

  function Take(jobs: seq<Job>, n: nat): seq<Job> { if n < |jobs| then jobs[..n] else jobs }

  // ----- Enqueueing -----

  function Enqueue(s: QueueState, job: Job): (QueueState, Result<()>) {
    if job.id == "" then (s, Err("job ID is required"))
    else (s.(jobs := s.jobs + [job]), Ok(()))
  }

  /** The second component is the job that stands for the request and whether it was
      there already. */
  function EnqueueUnique(s: QueueState, job: Job): (QueueState, Result<(Job, bool)>) {
    if job.id == "" then (s, Err("job ID is required"))
    else
      var i := IndexOfActive(s.jobs, job.dedupeKey);
      if i >= 0 then (s, Ok((s.jobs[i], true)))
      else (s.(jobs := s.jobs + [job]), Ok((job, false)))
  }

  function RecordDeadLetter(s: QueueState, job: Job, err: Option<string>, now: int, recordID: string): QueueState {
    s.(deadLetters := s.deadLetters + [RecordFor(job, err, now, recordID)], failureCount := s.failureCount + 1)
  }

  // ----- Leasing -----

  function ReapAll(jobs: seq<Job>, now: int): (r: seq<Job>)
    ensures |r| == |jobs|
    ensures forall i :: 0 <= i < |jobs| ==> r[i] == Reap(jobs[i], now)
  {
    Map(jobs, j => Reap(j, now))
  }

  function Observe(s: QueueState, now: int): QueueState { s.(jobs := ReapAll(s.jobs, now)) }

  function BusyJobs(jobs: seq<Job>): seq<Job> { Select(jobs, (j: Job) => Busy(j.status)) }

  function ReadyJobs(jobs: seq<Job>, now: int): seq<Job> { Select(jobs, (j: Job) => Ready(j, now)) }

  /** How many jobs one `LeaseReady` call may hand out. */
  function LeaseQuota(jobs: seq<Job>, limit: int, maxConcurrency: int): nat {
    if maxConcurrency > 0 then
      var remaining := maxConcurrency - |BusyJobs(jobs)|;
      if remaining <= 0 then 0 else if limit <= 0 || limit > remaining then remaining else limit
    else if limit <= 0 then |jobs|
    else limit
  }

  /** Among the first `n` ready jobs of the queue. */
  predicate Chosen(jobs: seq<Job>, i: nat, now: int, n: nat)
    requires i < |jobs|
  {
    Ready(jobs[i], now) && |ReadyJobs(jobs[..i], now)| < n
  }

  function GrantChosen(jobs: seq<Job>, now: int, ttl: int, n: nat): (r: seq<Job>)
    ensures |r| == |jobs|
    ensures forall i :: 0 <= i < |jobs| ==>
      r[i] == if Chosen(jobs, i, now, n) then Grant(jobs[i], now, ttl) else jobs[i]
  {
    seq(|jobs|, i requires 0 <= i < |jobs| => if Chosen(jobs, i, now, n) then Grant(jobs[i], now, ttl) else jobs[i])
  }

  /** The jobs handed out are the first `n` ready ones, in queue order. */
  function Granted(jobs: seq<Job>, now: int, ttl: int, n: nat): seq<Job> {
    Map(Take(ReadyJobs(jobs, now), n), j => Grant(j, now, ttl))
  }

  function LeaseReady(s: QueueState, now: int, limit: int, maxConcurrency: int, ttl: int): (QueueState, seq<Job>) {
    var jobs := ReapAll(s.jobs, now);
    var n := LeaseQuota(jobs, limit, maxConcurrency);
    (s.(jobs := GrantChosen(jobs, now, ttl, n)), Granted(jobs, now, ttl, n))
  }

  lemma NothingGranted(jobs: seq<Job>, now: int, ttl: int, n: nat)
    ensures Granted(jobs[..0], now, ttl, n) == []
  {
  }

  /** One step of the leasing scan. */
  lemma GrantedStep(jobs: seq<Job>, index: nat, now: int, ttl: int, n: nat)
    requires index < |jobs|
    ensures var granted := Granted(jobs[..index], now, ttl, n);
            && (Chosen(jobs, index, now, n) <==> Ready(jobs[index], now) && |granted| < n)
            && Granted(jobs[..index + 1], now, ttl, n)
               == if Chosen(jobs, index, now, n) then granted + [Grant(jobs[index], now, ttl)] else granted
  {
    assert jobs[..index + 1][..index] == jobs[..index];
    var before, after := ReadyJobs(jobs[..index], now), ReadyJobs(jobs[..index + 1], now);
    assert after == if Ready(jobs[index], now) then before + [jobs[index]] else before;
  }

  lemma ChosenInPrefix(jobs: seq<Job>, last: nat, k: nat, now: int, n: nat)
    requires k < last < |jobs|
    ensures Chosen(jobs[..last], k, now, n) <==> Chosen(jobs, k, now, n)
  {
    assert jobs[..last][..k] == jobs[..k];
  }

  /** Once the quota is filled, or the queue is used up, the rest of the queue adds nothing. */
  lemma {:induction false} QuotaReached(jobs: seq<Job>, index: nat, now: int, ttl: int, n: nat)
    requires index <= |jobs|
    requires index == |jobs| || |Granted(jobs[..index], now, ttl, n)| >= n
    ensures Granted(jobs[..index], now, ttl, n) == Granted(jobs, now, ttl, n)
    ensures forall k :: index <= k < |jobs| ==> !Chosen(jobs, k, now, n)
    decreases |jobs|
  {
    hide Granted, Chosen, Ready;
    if index == |jobs| {
      assert jobs[..index] == jobs;
    } else {
      var last := |jobs| - 1;
      var init := jobs[..last];
      assert init[..index] == jobs[..index] && init[..last] == init && jobs[..last + 1] == jobs;
      QuotaReached(init, index, now, ttl, n);
      GrantedStep(jobs, last, now, ttl, n);
      forall k | index <= k < |jobs|
        ensures !Chosen(jobs, k, now, n)
      {
        if k < |init| {
          ChosenInPrefix(jobs, last, k, now, n);
        }
      }
    }
  }

  /** The leasing scan has treated the first `index` places and left the others alone. */
  predicate Scanned(after: seq<Job>, jobs: seq<Job>, index: nat, now: int, ttl: int, n: nat)
    requires index <= |jobs|
  {
    && |after| == |jobs|
    && (forall k :: 0 <= k < index ==> after[k] == if Chosen(jobs, k, now, n) then Grant(jobs[k], now, ttl) else jobs[k])
    && (forall k :: index <= k < |jobs| ==> after[k] == jobs[k])
  }

  lemma ScanStarts(jobs: seq<Job>, now: int, ttl: int, n: nat)
    ensures Scanned(jobs, jobs, 0, now, ttl, n)
  {
  }

  lemma ScanStep(after: seq<Job>, jobs: seq<Job>, index: nat, now: int, ttl: int, n: nat)
    requires index < |jobs| && Scanned(after, jobs, index, now, ttl, n)
    ensures |after| == |jobs| && after[index] == jobs[index]
    ensures Scanned(if Chosen(jobs, index, now, n) then after[index := Grant(jobs[index], now, ttl)] else after, jobs, index + 1, now, ttl, n)
  {
    hide Chosen, Grant;
  }

  lemma ScanEnds(after: seq<Job>, jobs: seq<Job>, index: nat, now: int, ttl: int, n: nat)
    requires index <= |jobs| && Scanned(after, jobs, index, now, ttl, n)
    requires index == |jobs| || |Granted(jobs[..index], now, ttl, n)| >= n
    ensures after == GrantChosen(jobs, now, ttl, n) && Granted(jobs[..index], now, ttl, n) == Granted(jobs, now, ttl, n)
  {
    hide Chosen, Grant, Granted;
    QuotaReached(jobs, index, now, ttl, n);
  }

  function LeaseJob(s: QueueState, id: string, now: int, maxConcurrency: int, ttl: int): (QueueState, Result<Job>) {
    var jobs := ReapAll(s.jobs, now);
    var reaped := s.(jobs := jobs);
    var i := IndexOf(jobs, id);
    if maxConcurrency > 0 && |BusyJobs(jobs)| >= maxConcurrency then (reaped, Err("worker concurrency reached"))
    else if i < 0 then (reaped, Err("job not found"))
    else if !Ready(jobs[i], now) then (reaped, Err("job is not ready"))
    else
      var job := Grant(jobs[i], now, ttl);
      (s.(jobs := jobs[i := job]), Ok(job))
  }

  // ----- Single-job transitions -----

  function Complete(s: QueueState, id: string): (QueueState, Result<Job>) {
    var i := IndexOf(s.jobs, id);
    if i < 0 then (s, Err("job not found"))
    else if Terminal(s.jobs[i].status) then (s, Ok(s.jobs[i]))
    else
      var job := s.jobs[i].(status := Succeeded, lease := None, lastError := "");
      (s.(jobs := s.jobs[i := job]), Ok(job))
  }

  function Pause(s: QueueState, id: string): (QueueState, Result<Job>) {
    var i := IndexOf(s.jobs, id);
    if i < 0 then (s, Err("job not found"))
    else if Terminal(s.jobs[i].status) then (s, Err("job is already terminal"))
    else
      var job := s.jobs[i].(status := Paused, lease := None);
      (s.(jobs := s.jobs[i := job]), Ok(job))
  }

  function Resume(s: QueueState, id: string, now: int): (QueueState, Result<Job>) {
    var i := IndexOf(s.jobs, id);
    if i < 0 then (s, Err("job not found"))
    else if s.jobs[i].status != Paused then (s, Err("job is not paused"))
    else
      var job := s.jobs[i].(status := Pending, notBefore := now, lease := None);
      (s.(jobs := s.jobs[i := job]), Ok(job))
  }

  function Cancel(s: QueueState, id: string): (QueueState, Result<Job>) {
    var i := IndexOf(s.jobs, id);
    if i < 0 then (s, Err("job not found"))
    else if Terminal(s.jobs[i].status) then (s, Err("job is already terminal"))
    else
      var job := CanceledJob(s.jobs[i]);
      (s.(jobs := s.jobs[i := job]), Ok(job))
  }

  function CanceledJob(j: Job): Job { j.(status := Canceled, lease := None) }

  predicate InCorrelation(j: Job, correlationID: string) {
    j.correlationID == correlationID && !Terminal(j.status)
  }

  function CancelAll(jobs: seq<Job>, c: string): (r: seq<Job>)
    ensures |r| == |jobs|
    ensures forall i :: 0 <= i < |jobs| ==> r[i] == if InCorrelation(jobs[i], c) then CanceledJob(jobs[i]) else jobs[i]
  {
    Map(jobs, j => if InCorrelation(j, c) then CanceledJob(j) else j)
  }

  /** The jobs a correlation cancels, in queue order. */
  function CanceledJobs(jobs: seq<Job>, c: string): seq<Job> {
    Map(Select(jobs, j => InCorrelation(j, c)), j => CanceledJob(j))
  }

  function CancelByCorrelation(s: QueueState, correlationID: string): (QueueState, seq<Job>) {
    var c := TrimGo(correlationID);
    if c == "" then (s, []) else (s.(jobs := CancelAll(s.jobs, c)), CanceledJobs(s.jobs, c))
  }

  // ----- Failing and replaying -----

  /** A failure is accepted for any job that is not terminal, leased or not. */
  predicate Failable(s: QueueState, id: string) {
    var i := IndexOf(s.jobs, id);
    i >= 0 && !Terminal(s.jobs[i].status)
  }

  function Fail(s: QueueState, id: string, err: Option<string>, now: int, backoff: int, recordID: string)
    : (QueueState, Result<(Job, Option<DeadLetterRecord>)>)
  {
    var i := IndexOf(s.jobs, id);
    if i < 0 then (s, Err("job not found"))
    else if Terminal(s.jobs[i].status) then (s, Err("job is already terminal"))
    else
      var job := FailOnce(s.jobs[i], err, now, backoff);
      if job.status == DeadLetter then
        var record := RecordFor(job, err, now, recordID);
        (s.(jobs := s.jobs[i := job], deadLetters := s.deadLetters + [record], failureCount := s.failureCount + 1),
         Ok((job, Some(record))))
      else
        (s.(jobs := s.jobs[i := job], retryCount := s.retryCount + 1), Ok((job, None)))
  }

  function FailNonRetryable(s: QueueState, id: string, err: Option<string>, now: int, recordID: string)
    : (QueueState, Result<(Job, DeadLetterRecord)>)
  {
    var i := IndexOf(s.jobs, id);
    if i < 0 then (s, Err("job not found"))
    else if Terminal(s.jobs[i].status) then (s, Err("job is already terminal"))
    else
      var job := FailForGood(s.jobs[i], err, now);
      var record := RecordFor(job, err, now, recordID);
      (s.(jobs := s.jobs[i := job], deadLetters := s.deadLetters + [record], failureCount := s.failureCount + 1),
       Ok((job, record)))
  }

  function ReplayInput(r: DeadLetterRecord, correlationID: string): JobInput {
    JobInput(r.queueName, r.jobType, correlationID, r.deliveryID, r.installationID,
             r.repository, r.subject, r.dedupeKey, r.maxAttempts, None, None)
  }

  /** The new job for a record, in the record's correlation when the caller names none. */
  function ReplayedJob(r: DeadLetterRecord, correlationID: string, payload: Option<string>, clock: int, newID: string)
    : Result<Job>
  {
    match NewQueueJob(ReplayInput(r, correlationID), payload, clock, newID)
    case Err(message) => Err(message)
    case Ok(job) => Ok(if job.correlationID == "" then job.(correlationID := r.correlationID) else job)
  }

  /** The record is stamped even when the replay is refused or finds the work active.
      `payload` is the re-encoded payload; `clock` and `newID` serve the new job. */
  function ReplayDeadLetter(s: QueueState, recordID: string, correlationID: string, now: int,
                            payload: Option<string>, clock: int, newID: string)
    : (QueueState, Result<(Job, bool)>)
  {
    var i := IndexOfRecord(s.deadLetters, recordID);
    if i < 0 then (s, Err("dead-letter record not found"))
    else
      var record := s.deadLetters[i].(replayedAt := Some(now));
      var stamped := s.(deadLetters := s.deadLetters[i := record]);
      match ReplayedJob(record, correlationID, payload, clock, newID)
      case Err(message) => (stamped, Err(message))
      case Ok(job) =>
        var k := IndexOfActive(s.jobs, job.dedupeKey);
        if k >= 0 then (stamped, Ok((s.jobs[k], true)))
        else (stamped.(jobs := s.jobs + [job], replayCount := s.replayCount + 1), Ok((job, false)))
  }
}
