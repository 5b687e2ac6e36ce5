/** Queue jobs and dead-letter records, and what one operation does to one job. */
module Jobs {
  import opened Common
  import opened Text

  datatype Status = Pending | Leased | Running | Succeeded | Failed | DeadLetter | Paused | Canceled

  predicate Active(s: Status) { s.Pending? || s.Leased? || s.Running? || s.Paused? }

  predicate Terminal(s: Status) { s.Succeeded? || s.DeadLetter? || s.Canceled? }

  /** Statuses that occupy a worker. */
  predicate Busy(s: Status) { s.Leased? || s.Running? }

  /** Times are nanoseconds on one clock. `lease` is the lease deadline; Go's zero time is
      `None`. The payload is opaque JSON text. */
  datatype Job = Job(
    id: string, queueName: string, jobType: string, status: Status,
    correlationID: string, deliveryID: string, installationID: int,
    repository: string, subject: string, dedupeKey: string,
    attempts: nat, maxAttempts: int, scheduledAt: int, notBefore: int,
    lease: Option<int>, lastError: string, payload: string)

  datatype DeadLetterRecord = DeadLetterRecord(
    id: string, jobID: string, queueName: string, jobType: string,
    deliveryID: string, correlationID: string, installationID: int,
    repository: string, subject: string, dedupeKey: string,
    attempts: nat, maxAttempts: int, errorMessage: string, payload: string,
    createdAt: int, replayedAt: Option<int>)

  datatype JobInput = JobInput(
    queueName: string, jobType: string, correlationID: string, deliveryID: string,
    installationID: int, repository: string, subject: string, dedupeKey: string,
    maxAttempts: int, scheduledAt: Option<int>, notBefore: Option<int>)

  /** `now` and `id` stand for the clock and the random identifier; `payload` is what the
      JSON encoder made of the payload, or `None` when it refused it. */
  function NewQueueJob(input: JobInput, payload: Option<string>, now: int, id: string): Result<Job> {
    if TrimGo(input.queueName) == "" then Err("queue name is required")
    else if input.jobType == "" then Err("job type is required")
    else if input.maxAttempts <= 0 then Err("max attempts must be positive")
    else if payload.None? then Err("payload cannot be encoded")
    else
      var scheduledAt := if input.scheduledAt.Some? then input.scheduledAt.value else now;
      var notBefore := if input.notBefore.Some? then input.notBefore.value else scheduledAt;
      Ok(Job(id, input.queueName, input.jobType, Pending,
             TrimGo(input.correlationID), TrimGo(input.deliveryID), input.installationID,
             TrimGo(input.repository), TrimGo(input.subject), TrimGo(input.dedupeKey),
             0, input.maxAttempts, scheduledAt, notBefore, None, "", payload.value))
  }

  /** What `NewQueueJob` establishes: the job has never been touched by the queue. */
  predicate Brandnew(j: Job) {
    j.status == Pending && j.attempts == 0 && j.maxAttempts > 0 && j.lease == None
  }

  /** A job is made exactly of a named queue and type, a positive attempt limit and a payload
      that can be encoded. It is scheduled now unless told otherwise, and not due before it is
      scheduled unless told otherwise. */
  lemma NewQueueJobIsBrandnew(input: JobInput, payload: Option<string>, now: int, id: string)
    ensures var r := NewQueueJob(input, payload, now, id);
            && (r.Ok? <==> TrimGo(input.queueName) != "" && input.jobType != "" && input.maxAttempts > 0 && payload.Some?)
            && (r.Ok? ==>
                  && Brandnew(r.value) && r.value.id == id && Trimmed(r.value.dedupeKey, IsGoSpace)
                  && r.value.queueName == input.queueName && r.value.jobType == input.jobType
                  && r.value.correlationID == TrimGo(input.correlationID) && r.value.deliveryID == TrimGo(input.deliveryID)
                  && r.value.installationID == input.installationID && r.value.repository == TrimGo(input.repository)
                  && r.value.subject == TrimGo(input.subject) && r.value.dedupeKey == TrimGo(input.dedupeKey)
                  && r.value.maxAttempts == input.maxAttempts && r.value.lastError == "" && r.value.payload == payload.value
                  && (input.scheduledAt == None ==> r.value.scheduledAt == now)
                  && (input.scheduledAt.Some? ==> r.value.scheduledAt == input.scheduledAt.value)
                  && (input.notBefore == None ==> r.value.notBefore == r.value.scheduledAt)
                  && (input.notBefore.Some? ==> r.value.notBefore == input.notBefore.value))
  {
  }

  // ----- Leases -----

  predicate LeaseExpired(j: Job, now: int) {
    j.status == Leased && j.lease.Some? && j.lease.value <= now
  }

  function Reap(j: Job, now: int): Job {
    if LeaseExpired(j, now) then j.(status := Pending, lease := None) else j
  }

  predicate Ready(j: Job, now: int) { j.status == Pending && j.notBefore <= now }

  function Grant(j: Job, now: int, ttl: int): Job {
    j.(status := Leased, lease := if ttl > 0 then Some(now + ttl) else j.lease)
  }

  // ----- Failure -----

  function Pow2(n: nat): (p: nat)
    ensures p >= 1
  {
    if n == 0 then 1 else 2 * Pow2(n - 1)
  }

  const TWO_TO_THE_63 := 0x8000_0000_0000_0000
  const ONE_SECOND := 1_000_000_000

  /** Two's-complement truncation to 64 bits. */
  function Wrap64(x: int): (r: int)
    ensures -TWO_TO_THE_63 <= r < TWO_TO_THE_63
    ensures -TWO_TO_THE_63 <= x < TWO_TO_THE_63 <==> r == x
  {
    (x + TWO_TO_THE_63) % (2 * TWO_TO_THE_63) - TWO_TO_THE_63
  }

  /** Doubling backoff before the attempt after the given one, computed in 64-bit
      arithmetic: both the shift and the product are taken modulo 2^64. */
  function RetryDelay(backoff: int, attempts: nat): int
    requires attempts >= 1
  {
    Wrap64((if backoff <= 0 then ONE_SECOND else backoff) * Pow2(attempts - 1))
  }

  /** The delay is the exact doubling backoff precisely while it fits 64 bits. */
  lemma RetryDelayExact(backoff: int, attempts: nat)
    requires attempts >= 1 && backoff > 0
    ensures RetryDelay(backoff, attempts) == backoff * Pow2(attempts - 1)
            <==> backoff * Pow2(attempts - 1) < TWO_TO_THE_63
  {
    assert backoff * Pow2(attempts - 1) >= 0;
  }

  function ErrorText(err: Option<string>): string {
    if err.Some? then err.value else ""
  }

  /** One more attempt counted: retried later, or dead once the attempts are used up. */
  function FailOnce(j: Job, err: Option<string>, now: int, backoff: int): Job {
    var failed := j.(attempts := j.attempts + 1, lastError := ErrorText(err), lease := None);
    if failed.attempts >= failed.maxAttempts then
      failed.(status := DeadLetter)
    else
      failed.(status := Pending, notBefore := now + RetryDelay(backoff, failed.attempts))
  }

  /** Dead at once, all remaining attempts counted as used. */
  function FailForGood(j: Job, err: Option<string>, now: int): Job {
    var attempts := if j.attempts + 1 < j.maxAttempts then j.maxAttempts else j.attempts + 1;
    j.(attempts := attempts, lastError := ErrorText(err), lease := None, notBefore := now, status := DeadLetter)
  }

  function RecordFor(j: Job, err: Option<string>, now: int, recordID: string): DeadLetterRecord {
    DeadLetterRecord(recordID, j.id, j.queueName, j.jobType, j.deliveryID, j.correlationID,
                     j.installationID, j.repository, j.subject, j.dedupeKey,
                     j.attempts, j.maxAttempts, ErrorText(err), j.payload, now, None)
  }
}
