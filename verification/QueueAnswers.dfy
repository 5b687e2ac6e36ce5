/** What each queue operation answers and changes, said of the job it is about and of all the
    others, in terms of statuses, times and counts. */
module QueueAnswers {
  import opened Common
  import opened Text
  import opened Jobs
  import opened QueueSpec
  import opened QueueLeases

  /** The job with the identifier is at place `k`; of several, the first. */
  predicate At(jobs: seq<Job>, id: string, k: nat) {
    k < |jobs| && jobs[k].id == id && forall m :: 0 <= m < k ==> jobs[m].id != id
  }

  lemma IndexAt(jobs: seq<Job>, id: string, k: nat)
    requires At(jobs, id, k)
    ensures IndexOf(jobs, id) == k
  {
  }

  /** Only the jobs changed, and of them only the one at `k`. */
  predicate OnlyAt(s: QueueState, s': QueueState, k: nat) {
    && |s'.jobs| == |s.jobs| && s' == s.(jobs := s'.jobs)
    && forall m :: 0 <= m < |s.jobs| && m != k ==> s'.jobs[m] == s.jobs[m]
  }

  // ----- Settling, pausing and resuming -----

  lemma CompleteAnswers(s: QueueState, id: string, k: nat)
    requires At(s.jobs, id, k)
    ensures var (s', r) := Complete(s, id);
            && OnlyAt(s, s', k) && r == Ok(s'.jobs[k])
            && if s.jobs[k].status in {Succeeded, DeadLetter, Canceled} then s'.jobs[k] == s.jobs[k]
               else s'.jobs[k] == s.jobs[k].(status := Succeeded, lease := None, lastError := "")
  {
    IndexAt(s.jobs, id, k);
  }

  lemma PauseAnswers(s: QueueState, id: string, k: nat)
    requires At(s.jobs, id, k)
    ensures var (s', r) := Pause(s, id);
            if s.jobs[k].status in {Succeeded, DeadLetter, Canceled} then r.Err? && s' == s
            else OnlyAt(s, s', k) && r == Ok(s'.jobs[k]) && s'.jobs[k] == s.jobs[k].(status := Paused, lease := None)
  {
    IndexAt(s.jobs, id, k);
  }

  lemma ResumeAnswers(s: QueueState, id: string, k: nat, now: int)
    requires At(s.jobs, id, k)
    ensures var (s', r) := Resume(s, id, now);
            if s.jobs[k].status != Paused then r.Err? && s' == s
            else OnlyAt(s, s', k) && r == Ok(s'.jobs[k])
                 && s'.jobs[k] == s.jobs[k].(status := Pending, notBefore := now, lease := None)
  {
    IndexAt(s.jobs, id, k);
  }

  lemma CancelAnswers(s: QueueState, id: string, k: nat)
    requires At(s.jobs, id, k)
    ensures var (s', r) := Cancel(s, id);
            if s.jobs[k].status in {Succeeded, DeadLetter, Canceled} then r.Err? && s' == s
            else OnlyAt(s, s', k) && r == Ok(s'.jobs[k]) && s'.jobs[k] == s.jobs[k].(status := Canceled, lease := None)
  {
    IndexAt(s.jobs, id, k);
  }

  lemma CancelByCorrelationAnswers(s: QueueState, correlationID: string)
    ensures var (s', canceled) := CancelByCorrelation(s, correlationID);
            && |s'.jobs| == |s.jobs| && s' == s.(jobs := s'.jobs) && canceled == Changed(s.jobs, s'.jobs)
            && forall k :: 0 <= k < |s.jobs| ==>
                 s'.jobs[k] == if TrimGo(correlationID) != "" && s.jobs[k].correlationID == TrimGo(correlationID)
                                  && s.jobs[k].status !in {Succeeded, DeadLetter, Canceled}
                               then s.jobs[k].(status := Canceled, lease := None) else s.jobs[k]
  {
    hide TrimGo;
    var c := TrimGo(correlationID);
    if c == "" {
      NothingChanged(s.jobs);
    } else {
      CanceledAreChanged(s.jobs, c);
    }
  }

  lemma {:induction false} NothingChanged(jobs: seq<Job>)
    ensures Changed(jobs, jobs) == []
  {
    if jobs != [] {
      NothingChanged(jobs[..|jobs| - 1]);
    }
  }

  lemma {:induction false} CanceledAreChanged(jobs: seq<Job>, c: string)
    ensures CanceledJobs(jobs, c) == Changed(jobs, CancelAll(jobs, c))
  {
    if jobs != [] {
      var n := |jobs| - 1;
      CanceledAreChanged(jobs[..n], c);
      assert CancelAll(jobs, c)[..n] == CancelAll(jobs[..n], c);
    }
  }

  /** Nobody knows an identifier that no job has. */
  lemma UnknownIsRefused(s: QueueState, id: string, now: int, err: Option<string>, backoff: int, recordID: string)
    requires forall k :: 0 <= k < |s.jobs| ==> s.jobs[k].id != id
    ensures Complete(s, id).0 == s && Complete(s, id).1.Err?
    ensures Pause(s, id).0 == s && Pause(s, id).1.Err?
    ensures Resume(s, id, now).0 == s && Resume(s, id, now).1.Err?
    ensures Cancel(s, id).0 == s && Cancel(s, id).1.Err?
    ensures Fail(s, id, err, now, backoff, recordID).0 == s && Fail(s, id, err, now, backoff, recordID).1.Err?
    ensures FailNonRetryable(s, id, err, now, recordID).0 == s && FailNonRetryable(s, id, err, now, recordID).1.Err?
  {
    hide FailOnce, FailForGood;
    assert IndexOf(s.jobs, id) < 0;
  }

  // ----- Enqueueing -----

  /** A job is refused for want of an identifier only; otherwise it goes to the end. */
  lemma EnqueueAnswers(s: QueueState, job: Job)
    ensures var (s', r) := Enqueue(s, job);
            if job.id == "" then r.Err? && s' == s else r.Ok? && s' == s.(jobs := s.jobs + [job])
  {
  }

  predicate ActiveWith(jobs: seq<Job>, k: nat, key: string) {
    k < |jobs| && jobs[k].dedupeKey == key && jobs[k].status in {Pending, Leased, Running, Paused}
  }

  predicate FirstActiveWith(jobs: seq<Job>, k: nat, key: string) {
    ActiveWith(jobs, k, key) && forall m :: 0 <= m < k ==> !ActiveWith(jobs, m, key)
  }

  /** The first active job with a non-empty key stands for every other with that key. */
  lemma EnqueueUniqueAnswers(s: QueueState, job: Job)
    requires job.id != ""
    ensures var (s', r) := EnqueueUnique(s, job);
            && r.Ok?
            && (forall k: nat :: job.dedupeKey != "" && FirstActiveWith(s.jobs, k, job.dedupeKey) ==>
                  s' == s && r.value == (s.jobs[k], true))
            && ((job.dedupeKey == "" || forall k: nat :: !ActiveWith(s.jobs, k, job.dedupeKey)) ==>
                  s' == s.(jobs := s.jobs + [job]) && r.value == (job, false))
  {
    hide EnqueueUnique, ActiveWith;
    FirstActive(s.jobs, job.dedupeKey);
    var i := IndexOfActive(s.jobs, job.dedupeKey);
    EnqueueUniqueByIndex(s, job);
    forall k: nat | FirstActiveWith(s.jobs, k, job.dedupeKey) && job.dedupeKey != ""
      ensures k == i
    {
    }
  }

  lemma EnqueueUniqueByIndex(s: QueueState, job: Job)
    requires job.id != ""
    ensures var i := IndexOfActive(s.jobs, job.dedupeKey);
            EnqueueUnique(s, job) == if i >= 0 then (s, Ok((s.jobs[i], true))) else (s.(jobs := s.jobs + [job]), Ok((job, false)))
  {
    hide IndexOfActive;
  }

  lemma FirstActive(jobs: seq<Job>, key: string)
    ensures var i := IndexOfActive(jobs, key);
            if i < 0 then key == "" || forall k: nat :: !ActiveWith(jobs, k, key)
            else key != "" && ActiveWith(jobs, i, key) && forall m :: 0 <= m < i ==> !ActiveWith(jobs, m, key)
  {
    assert forall k: nat :: k < |jobs| ==> (SameWork(jobs[k], key) <==> key != "" && ActiveWith(jobs, k, key));
  }

  // ----- Reaping and leasing -----

  /** Exactly the leases whose deadline has come are taken back. */
  lemma ReapAnswers(jobs: seq<Job>, now: int)
    ensures |ReapAll(jobs, now)| == |jobs|
    ensures forall k :: 0 <= k < |jobs| ==>
      ReapAll(jobs, now)[k] == if jobs[k].status == Leased && jobs[k].lease.Some? && jobs[k].lease.value <= now
                               then jobs[k].(status := Pending, lease := None) else jobs[k]
  {
  }

  /** The places of the jobs that occupy a worker. */
  function BusyPlaces(jobs: seq<Job>): set<int> {
    set k | 0 <= k < |jobs| && jobs[k].status in {Leased, Running}
  }

  lemma {:induction false} BusyCounted(jobs: seq<Job>)
    ensures |BusyJobs(jobs)| == |BusyPlaces(jobs)|
  {
    hide BusyJobs, BusyPlaces;
    if jobs == [] {
      NobodyBusy();
    } else {
      BusyCounted(jobs[..|jobs| - 1]);
      BusyLast(jobs);
      BusyPlacesLast(jobs);
    }
  }

  lemma NobodyBusy()
    ensures BusyJobs([]) == [] && BusyPlaces([]) == {}
  {
  }

  lemma BusyPlacesLast(jobs: seq<Job>)
    requires jobs != []
    ensures var n := |jobs| - 1;
            |BusyPlaces(jobs)| == |BusyPlaces(jobs[..n])| + if Busy(jobs[n].status) then 1 else 0
  {
    var n := |jobs| - 1;
    var before := BusyPlaces(jobs[..n]);
    assert n !in before;
    if Busy(jobs[n].status) {
      assert BusyPlaces(jobs) == before + {n};
    } else {
      assert BusyPlaces(jobs) == before;
    }
  }

  predicate Due(j: Job, now: int) { j.status == Pending && j.notBefore <= now }

  function LeasedJob(j: Job, now: int, ttl: int): Job {
    if ttl > 0 then j.(status := Leased, lease := Some(now + ttl)) else j.(status := Leased)
  }

  /** Leasing hands out due jobs only, in queue order, and stops for three reasons only: no due
      job is left, the caller's limit is reached, or all workers are occupied. It never
      exceeds the caller's limit, nor occupies more workers than there are. */
  lemma LeaseReadyAnswers(s: QueueState, now: int, limit: int, maxConcurrency: int, ttl: int)
    ensures var (s', leased) := LeaseReady(s, now, limit, maxConcurrency, ttl);
            var jobs := ReapAll(s.jobs, now);
            && |s'.jobs| == |jobs| && s' == s.(jobs := s'.jobs) && leased == Changed(jobs, s'.jobs)
            && (forall k :: 0 <= k < |jobs| ==> s'.jobs[k] == jobs[k] || (Due(jobs[k], now) && s'.jobs[k] == LeasedJob(jobs[k], now, ttl)))
            && (forall i, k :: 0 <= i < k < |jobs| && Due(jobs[i], now) && s'.jobs[k] != jobs[k] ==> s'.jobs[i] != jobs[i])
            && (limit > 0 ==> |leased| <= limit)
            && (maxConcurrency > 0 && leased != [] ==> |BusyPlaces(s'.jobs)| <= maxConcurrency)
            && ((exists k :: 0 <= k < |jobs| && Due(s'.jobs[k], now)) ==>
                  || (limit > 0 && |leased| == limit)
                  || (maxConcurrency > 0 && |BusyPlaces(s'.jobs)| >= maxConcurrency))
  {
    hide BusyPlaces, BusyJobs, ReadyJobs, Reap, LeaseReady;
    var (s', leased) := LeaseReady(s, now, limit, maxConcurrency, ttl);
    var jobs := ReapAll(s.jobs, now);
    LeaseReadyExact(s, now, limit, maxConcurrency, ttl);
    BusyCounted(jobs);
    BusyCounted(s'.jobs);
    forall i, k | 0 <= i < k < |jobs| && Due(jobs[i], now) && s'.jobs[k] != jobs[k]
      ensures s'.jobs[i] != jobs[i]
    {
      assert Ready(jobs[i], now) && s'.jobs[i] == Grant(jobs[i], now, ttl);
    }
    if k :| 0 <= k < |jobs| && Due(s'.jobs[k], now) {
      assert Ready(s'.jobs[k], now);
      assert |leased| >= LeaseQuota(jobs, limit, maxConcurrency);
      ChangedAll(jobs, s'.jobs);
    }
  }

  /** When as many entries changed as there are, all did. */
  lemma {:induction false} ChangedAll(before: seq<Job>, after: seq<Job>)
    requires |before| == |after|
    ensures |Changed(before, after)| <= |before|
    ensures |Changed(before, after)| == |before| ==> forall k :: 0 <= k < |before| ==> after[k] != before[k]
  {
    if before != [] {
      ChangedAll(before[..|before| - 1], after[..|after| - 1]);
    }
  }

  /** One named job: leased exactly when a worker is free and it is due. */
  lemma LeaseJobAnswers(s: QueueState, id: string, k: nat, now: int, maxConcurrency: int, ttl: int)
    requires At(s.jobs, id, k)
    ensures var (s', r) := LeaseJob(s, id, now, maxConcurrency, ttl);
            var jobs := ReapAll(s.jobs, now);
            var leased := (maxConcurrency <= 0 || |BusyPlaces(jobs)| < maxConcurrency) && Due(jobs[k], now);
            && (r.Ok? <==> leased)
            && if leased then OnlyAt(s.(jobs := jobs), s', k) && s'.jobs[k] == LeasedJob(jobs[k], now, ttl) && r == Ok(s'.jobs[k])
               else s' == s.(jobs := jobs)
  {
    hide BusyPlaces, BusyJobs;
    ReapedIndex(s.jobs, id, now);
    IndexAt(s.jobs, id, k);
    BusyCounted(ReapAll(s.jobs, now));
  }

  // ----- Failing -----

  /** The record carries everything of the job that a replay needs. */
  predicate Mirrors(r: DeadLetterRecord, j: Job) {
    && r.jobID == j.id && r.queueName == j.queueName && r.jobType == j.jobType && r.deliveryID == j.deliveryID
    && r.correlationID == j.correlationID && r.installationID == j.installationID && r.repository == j.repository
    && r.subject == j.subject && r.dedupeKey == j.dedupeKey && r.attempts == j.attempts && r.maxAttempts == j.maxAttempts
    && r.payload == j.payload
  }

  /** One dead job, one record of it, one failure more. */
  predicate Buries(s: QueueState, s': QueueState, k: nat, err: Option<string>, now: int, recordID: string) {
    && k < |s'.jobs| == |s.jobs| && s'.jobs[k].status == DeadLetter && s'.jobs[k].lease == None
    && s'.jobs[k].lastError == (if err.Some? then err.value else "")
    && (forall m :: 0 <= m < |s.jobs| && m != k ==> s'.jobs[m] == s.jobs[m])
    && s'.failureCount == s.failureCount + 1 && s'.retryCount == s.retryCount && s'.replayCount == s.replayCount
    && |s'.deadLetters| == |s.deadLetters| + 1 && s'.deadLetters[..|s.deadLetters|] == s.deadLetters
    && var r := s'.deadLetters[|s.deadLetters|];
       && Mirrors(r, s'.jobs[k]) && r.id == recordID && r.createdAt == now && r.replayedAt == None
       && r.errorMessage == s'.jobs[k].lastError
  }

  lemma WrapMeans(x: int)
    ensures -0x8000_0000_0000_0000 <= Wrap64(x) < 0x8000_0000_0000_0000
    ensures (x - Wrap64(x)) % 0x1_0000_0000_0000_0000 == 0
  {
  }

  /** A failure with attempts left sends the job back: due after the base backoff doubled once
      for every earlier attempt, up to multiples of 2^64 nanoseconds. The last failure buries
      it. */
  lemma FailAnswers(s: QueueState, id: string, k: nat, err: Option<string>, now: int, backoff: int, recordID: string)
    requires At(s.jobs, id, k)
    ensures var (s', r) := Fail(s, id, err, now, backoff, recordID);
            var j := s.jobs[k];
            if j.status in {Succeeded, DeadLetter, Canceled} then r.Err? && s' == s
            else if j.attempts + 1 < j.maxAttempts then
              && r == Ok((s'.jobs[k], None)) && OnlyAt(s.(retryCount := s.retryCount + 1), s', k)
              && s'.jobs[k] == j.(status := Pending, attempts := j.attempts + 1, lease := None, notBefore := s'.jobs[k].notBefore,
                                  lastError := if err.Some? then err.value else "")
              && Delayed(s'.jobs[k].notBefore - now, (if backoff <= 0 then 1_000_000_000 else backoff) * Pow2(j.attempts))
            else
              && Buries(s, s', k, err, now, recordID) && r == Ok((s'.jobs[k], Some(s'.deadLetters[|s.deadLetters|])))
              && s'.jobs[k] == j.(status := DeadLetter, attempts := j.attempts + 1, lease := None, lastError := s'.jobs[k].lastError)
  {
    hide Pow2, Wrap64;
    IndexAt(s.jobs, id, k);
    WrapMeans((if backoff <= 0 then ONE_SECOND else backoff) * Pow2(s.jobs[k].attempts));
    DelayExact((if backoff <= 0 then ONE_SECOND else backoff) * Pow2(s.jobs[k].attempts));
  }

  /** The delay is the wanted one when that fits 64 bits, and congruent to it in any case. */
  predicate Delayed(delay: int, wanted: int) {
    && -0x8000_0000_0000_0000 <= delay < 0x8000_0000_0000_0000
    && (delay == wanted <==> -0x8000_0000_0000_0000 <= wanted < 0x8000_0000_0000_0000)
    && (wanted - delay) % 0x1_0000_0000_0000_0000 == 0
  }

  lemma DelayExact(x: int)
    ensures Delayed(Wrap64(x), x)
  {
    WrapMeans(x);
  }

  /** A failure that is not worth retrying buries the job at once, with all attempts used. */
  lemma FailNonRetryableAnswers(s: QueueState, id: string, k: nat, err: Option<string>, now: int, recordID: string)
    requires At(s.jobs, id, k)
    ensures var (s', r) := FailNonRetryable(s, id, err, now, recordID);
            var j := s.jobs[k];
            if j.status in {Succeeded, DeadLetter, Canceled} then r.Err? && s' == s
            else
              && Buries(s, s', k, err, now, recordID) && r == Ok((s'.jobs[k], s'.deadLetters[|s.deadLetters|]))
              && s'.jobs[k] == j.(status := DeadLetter, attempts := s'.jobs[k].attempts, lease := None, notBefore := now,
                                  lastError := s'.jobs[k].lastError)
              && s'.jobs[k].attempts > j.attempts && s'.jobs[k].attempts >= j.maxAttempts
              && (j.attempts < j.maxAttempts ==> s'.jobs[k].attempts == j.maxAttempts)
  {
    IndexAt(s.jobs, id, k);
  }

  lemma RecordDeadLetterAnswers(s: QueueState, job: Job, err: Option<string>, now: int, recordID: string)
    ensures var s' := RecordDeadLetter(s, job, err, now, recordID);
            && s'.jobs == s.jobs && s'.retryCount == s.retryCount && s'.replayCount == s.replayCount
            && s'.failureCount == s.failureCount + 1
            && |s'.deadLetters| == |s.deadLetters| + 1 && s'.deadLetters[..|s.deadLetters|] == s.deadLetters
            && var r := s'.deadLetters[|s.deadLetters|];
               && Mirrors(r, job) && r.id == recordID && r.createdAt == now && r.replayedAt == None
               && r.errorMessage == (if err.Some? then err.value else "")
  {
  }

  // ----- Replaying -----

  predicate RecordAt(records: seq<DeadLetterRecord>, id: string, m: nat) {
    m < |records| && records[m].id == id && forall i :: 0 <= i < m ==> records[i].id != id
  }

  /** A fresh job that asks for what the record's job asked for. */
  predicate StartsOver(j: Job, r: DeadLetterRecord, correlationID: string, payload: string, clock: int, newID: string) {
    && j.id == newID && j.queueName == r.queueName && j.jobType == r.jobType && j.status == Pending
    && j.correlationID == (if TrimGo(correlationID) != "" then TrimGo(correlationID) else r.correlationID)
    && j.deliveryID == TrimGo(r.deliveryID) && j.installationID == r.installationID
    && j.repository == TrimGo(r.repository) && j.subject == TrimGo(r.subject) && j.dedupeKey == TrimGo(r.dedupeKey)
    && j.attempts == 0 && j.maxAttempts == r.maxAttempts && j.scheduledAt == clock && j.notBefore == clock
    && j.lease == None && j.lastError == "" && j.payload == payload
  }

  lemma ReplayAnswers(s: QueueState, recordID: string, m: nat, correlationID: string, now: int,
                      payload: Option<string>, clock: int, newID: string)
    requires RecordAt(s.deadLetters, recordID, m)
    ensures var (s', r) := ReplayDeadLetter(s, recordID, correlationID, now, payload, clock, newID);
            var record := s.deadLetters[m];
            var key := TrimGo(record.dedupeKey);
            && s'.deadLetters == s.deadLetters[m := record.(replayedAt := Some(now))]
            && s'.retryCount == s.retryCount && s'.failureCount == s.failureCount
            && if TrimGo(record.queueName) == "" || record.jobType == "" || record.maxAttempts <= 0 || payload == None then
                 r.Err? && s'.jobs == s.jobs && s'.replayCount == s.replayCount
               else if key != "" && exists k: nat :: ActiveWith(s.jobs, k, key) then
                 && s'.jobs == s.jobs && s'.replayCount == s.replayCount
                 && r.Ok? && r.value.1 && exists k: nat :: ActiveWith(s.jobs, k, key) && r.value.0 == s.jobs[k]
               else
                 && |s'.jobs| == |s.jobs| + 1 && s'.jobs[..|s.jobs|] == s.jobs && s'.replayCount == s.replayCount + 1
                 && r == Ok((s'.jobs[|s.jobs|], false))
                 && StartsOver(s'.jobs[|s.jobs|], record, correlationID, payload.value, clock, newID)
  {
    hide TrimGo, IndexOfActive;
    assert IndexOfRecord(s.deadLetters, recordID) == m;
    FirstActive(s.jobs, TrimGo(s.deadLetters[m].dedupeKey));
  }

  lemma UnknownRecordIsRefused(s: QueueState, recordID: string, correlationID: string, now: int,
                               payload: Option<string>, clock: int, newID: string)
    requires forall m :: 0 <= m < |s.deadLetters| ==> s.deadLetters[m].id != recordID
    ensures var (s', r) := ReplayDeadLetter(s, recordID, correlationID, now, payload, clock, newID); s' == s && r.Err?
  {
    hide ReplayedJob;
    assert IndexOfRecord(s.deadLetters, recordID) < 0;
  }

  /** The texts of a job made by `NewQueueJob` carry no outer white space. */
  predicate Tidied(j: Job) {
    TrimGo(j.deliveryID) == j.deliveryID && TrimGo(j.repository) == j.repository && TrimGo(j.subject) == j.subject
    && TrimGo(j.dedupeKey) == j.dedupeKey
  }

  /** The new job asks for what the old one asked for. */
  function StartedOver(j: Job, correlationID: string, payload: string, clock: int, newID: string): Job {
    j.(id := newID, status := Pending, attempts := 0, scheduledAt := clock, notBefore := clock, lease := None, lastError := "",
       payload := payload, correlationID := if TrimGo(correlationID) != "" then TrimGo(correlationID) else j.correlationID)
  }

  lemma StartsOverFromJob(j: Job, j': Job, r: DeadLetterRecord, correlationID: string, payload: string, clock: int, newID: string)
    requires Tidied(j) && Mirrors(r, j) && StartsOver(j', r, correlationID, payload, clock, newID)
    ensures j' == StartedOver(j, correlationID, payload, clock, newID)
  {
    hide TrimGo;
  }

  /** Round trip: a buried job that is replayed starts over as what it was, under a new
      identifier. */
  lemma BuriedThenReplayed(s: QueueState, s1: QueueState, id: string, k: nat, err: Option<string>, now: int, backoff: int,
                           recordID: string, correlationID: string, later: int, payload: string, newID: string)
    requires At(s.jobs, id, k) && Tidied(s.jobs[k]) && s.jobs[k].status !in {Succeeded, DeadLetter, Canceled}
    requires s.jobs[k].attempts + 1 >= s.jobs[k].maxAttempts
    requires forall m :: 0 <= m < |s.deadLetters| ==> s.deadLetters[m].id != recordID
    requires s1 == Fail(s, id, err, now, backoff, recordID).0
    ensures var r := ReplayDeadLetter(s1, recordID, correlationID, later, Some(payload), later, newID).1;
            r.Ok? && !r.value.1 ==> r.value.0 == StartedOver(s.jobs[k], correlationID, payload, later, newID)
  {
    hide TrimGo, Fail, ReplayDeadLetter, StartsOver, Mirrors, StartedOver, Tidied, ActiveWith;
    FailAnswers(s, id, k, err, now, backoff, recordID);
    var m := |s.deadLetters|;
    var record := s1.deadLetters[m];
    assert record.id == recordID && forall i :: 0 <= i < m ==> s1.deadLetters[i] == s1.deadLetters[..m][i];
    ReplayAnswers(s1, recordID, m, correlationID, later, Some(payload), later, newID);
    var r := ReplayDeadLetter(s1, recordID, correlationID, later, Some(payload), later, newID).1;
    if r.Ok? && !r.value.1 {
      TidiedSame(s.jobs[k], s1.jobs[k]);
      StartsOverFromJob(s1.jobs[k], r.value.0, record, correlationID, payload, later, newID);
      StartedOverSame(s.jobs[k], s1.jobs[k], correlationID, payload, later, newID);
    }
  }

  lemma TidiedSame(j: Job, dead: Job)
    requires Tidied(j) && dead == j.(status := dead.status, attempts := dead.attempts, lease := dead.lease, lastError := dead.lastError)
    ensures Tidied(dead)
  {
    hide TrimGo;
  }

  lemma StartedOverSame(j: Job, dead: Job, correlationID: string, payload: string, clock: int, newID: string)
    requires dead == j.(status := dead.status, attempts := dead.attempts, lease := dead.lease, lastError := dead.lastError)
    ensures StartedOver(dead, correlationID, payload, clock, newID) == StartedOver(j, correlationID, payload, clock, newID)
  {
    hide TrimGo;
  }
}
