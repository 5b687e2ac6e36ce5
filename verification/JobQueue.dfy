/** The in-memory job queue, updated in place. Every method runs under the queue's mutex,
    so each is one atomic step; its contract says which step of `QueueSpec` it is. Clock
    readings and random identifiers are parameters. */
module JobQueue {
  import opened Common
  import opened Text
  import opened Jobs
  import Spec = QueueSpec

  class InMemoryJobQueue {
    var jobs: seq<Job>
    var deadLetters: seq<DeadLetterRecord>
    var retryCount: int
    var failureCount: int
    var replayCount: int

    ghost function State(): Spec.QueueState
      reads this
    {
      Spec.QueueState(jobs, deadLetters, retryCount, failureCount, replayCount)
    }

    constructor ()
      ensures State() == Spec.EMPTY
    {
      jobs, deadLetters, retryCount, failureCount, replayCount := [], [], 0, 0, 0;
    }

    // ----- Enqueueing -----

    method Enqueue(job: Job) returns (r: Result<()>)
      modifies this`jobs
      ensures (State(), r) == Spec.Enqueue(old(State()), job)
    {
      if job.id == "" {
        return Err("job ID is required");
      }
      jobs := jobs + [job];
      return Ok(());
    }

    method EnqueueUnique(job: Job) returns (r: Result<(Job, bool)>)
      modifies this`jobs
      ensures (State(), r) == Spec.EnqueueUnique(old(State()), job)
    {
      if job.id == "" {
        return Err("job ID is required");
      }
      var existing := FindActive(job.dedupeKey);
      if existing >= 0 {
        return Ok((jobs[existing], true));
      }
      jobs := jobs + [job];
      return Ok((job, false));
    }

    method FindActive(key: string) returns (index: int)
      ensures index == Spec.IndexOfActive(jobs, key)
    {
      index := 0;
      while index < |jobs|
        invariant 0 <= index <= |jobs|
        invariant forall k :: 0 <= k < index ==> !Spec.SameWork(jobs[k], key)
      {
        if key != "" && jobs[index].dedupeKey == key && Active(jobs[index].status) {
          return;
        }
        index := index + 1;
      }
      return -1;
    }

    method RecordDeadLetter(job: Job, err: Option<string>, clock: int, recordID: string)
      modifies this
      ensures State() == Spec.RecordDeadLetter(old(State()), job, err, clock, recordID)
    {
      deadLetters := deadLetters + [RecordFor(job, err, clock, recordID)];
      failureCount := failureCount + 1;
    }

    // ----- Reading -----

    method AllJobs(clock: int) returns (r: seq<Job>)
      modifies this`jobs
      ensures State() == Spec.Observe(old(State()), clock) && r == jobs
    {
      ReapExpiredLeases(clock);
      return jobs;
    }

    method FindJob(jobID: string, clock: int) returns (r: Option<Job>)
      modifies this`jobs
      ensures State() == Spec.Observe(old(State()), clock)
      ensures r == var i := Spec.IndexOf(jobs, jobID); if i < 0 then None else Some(jobs[i])
    {
      ReapExpiredLeases(clock);
      var index := JobIndex(jobID);
      return if index < 0 then None else Some(jobs[index]);
    }

    method FindDeadLetter(recordID: string) returns (r: Option<DeadLetterRecord>)
      ensures r == var i := Spec.IndexOfRecord(deadLetters, recordID); if i < 0 then None else Some(deadLetters[i])
    {
      var index := RecordIndex(recordID);
      return if index < 0 then None else Some(deadLetters[index]);
    }

    method ExportState(clock: int) returns (r: Spec.QueueState)
      modifies this`jobs
      ensures State() == Spec.Observe(old(State()), clock) && r == State()
    {
      ReapExpiredLeases(clock);
      return Spec.QueueState(jobs, deadLetters, retryCount, failureCount, replayCount);
    }

    method RestoreState(state: Spec.QueueState)
      modifies this
      ensures State() == state
    {
      jobs, deadLetters := state.jobs, state.deadLetters;
      retryCount, failureCount, replayCount := state.retryCount, state.failureCount, state.replayCount;
    }

    method JobIndex(jobID: string) returns (index: int)
      ensures index == Spec.IndexOf(jobs, jobID)
    {
      index := 0;
      while index < |jobs|
        invariant 0 <= index <= |jobs|
        invariant forall k :: 0 <= k < index ==> jobs[k].id != jobID
      {
        if jobs[index].id == jobID {
          return;
        }
        index := index + 1;
      }
      return -1;
    }

    method RecordIndex(recordID: string) returns (index: int)
      ensures index == Spec.IndexOfRecord(deadLetters, recordID)
    {
      index := 0;
      while index < |deadLetters|
        invariant 0 <= index <= |deadLetters|
        invariant forall k :: 0 <= k < index ==> deadLetters[k].id != recordID
      {
        if deadLetters[index].id == recordID {
          return;
        }
        index := index + 1;
      }
      return -1;
    }

    // ----- Leasing -----

    method ReapExpiredLeases(now: int)
      modifies this`jobs
      ensures jobs == Spec.ReapAll(old(jobs), now)
    {
      var index := 0;
      while index < |jobs|
        invariant 0 <= index <= |jobs| == |old(jobs)|
        invariant forall k :: 0 <= k < index ==> jobs[k] == Reap(old(jobs)[k], now)
        invariant forall k :: index <= k < |jobs| ==> jobs[k] == old(jobs)[k]
      {
        var job := jobs[index];
        if job.status == Leased && job.lease.Some? && job.lease.value <= now {
          jobs := jobs[index := job.(status := Pending, lease := None)];
        }
        index := index + 1;
      }
    }

    method CountBusy() returns (n: nat)
      ensures n == |Spec.BusyJobs(jobs)|
    {
      n := 0;
      for index := 0 to |jobs|
        invariant n == |Spec.BusyJobs(jobs[..index])|
      {
        assert jobs[..index + 1][..index] == jobs[..index];
        if jobs[index].status == Leased || jobs[index].status == Running {
          n := n + 1;
        }
      }
      assert jobs[..|jobs|] == jobs;
    }

    method LeaseReady(now: int, limit: int, maxConcurrency: int, leaseTTL: int) returns (leased: seq<Job>)
      modifies this`jobs
      ensures (State(), leased) == Spec.LeaseReady(old(State()), now, limit, maxConcurrency, leaseTTL)
    {
      hide Spec.Scanned, Spec.Chosen, Spec.Granted, Spec.GrantChosen, Spec.BusyJobs, Spec.ReapAll;
      ReapExpiredLeases(now);
      ghost var reaped := jobs;
      var activeLeases := CountBusy();
      var quota := limit;
      if maxConcurrency > 0 {
        var remaining := maxConcurrency - activeLeases;
        if remaining <= 0 {
          Spec.NothingGranted(reaped, now, leaseTTL, 0);
          Spec.ScanStarts(reaped, now, leaseTTL, 0);
          Spec.ScanEnds(jobs, reaped, 0, now, leaseTTL, 0);
          return [];
        }
        if quota <= 0 || quota > remaining {
          quota := remaining;
        }
      } else if quota <= 0 {
        quota := |jobs|;
      }

      assert quota == Spec.LeaseQuota(reaped, limit, maxConcurrency);
      leased := [];
      Spec.NothingGranted(reaped, now, leaseTTL, quota);
      Spec.ScanStarts(reaped, now, leaseTTL, quota);
      var index := 0;
      while index < |jobs| && |leased| < quota
        invariant 0 <= index <= |jobs| == |reaped| && 0 <= quota
        invariant leased == Spec.Granted(reaped[..index], now, leaseTTL, quota)
        invariant Spec.Scanned(jobs, reaped, index, now, leaseTTL, quota)
        decreases |jobs| - index
      {
        var job := jobs[index];
        Spec.GrantedStep(reaped, index, now, leaseTTL, quota);
        Spec.ScanStep(jobs, reaped, index, now, leaseTTL, quota);
        if job.status == Pending && job.notBefore <= now {
          job := job.(status := Leased);
          if leaseTTL > 0 {
            job := job.(lease := Some(now + leaseTTL));
          }
          jobs := jobs[index := job];
          leased := leased + [job];
        }
        index := index + 1;
      }
      Spec.ScanEnds(jobs, reaped, index, now, leaseTTL, quota);
    }

    method LeaseJob(jobID: string, now: int, maxConcurrency: int, leaseTTL: int) returns (r: Result<Job>)
      modifies this`jobs
      ensures (State(), r) == Spec.LeaseJob(old(State()), jobID, now, maxConcurrency, leaseTTL)
    {
      ReapExpiredLeases(now);
      if maxConcurrency > 0 {
        var activeLeases := CountBusy();
        if activeLeases >= maxConcurrency {
          return Err("worker concurrency reached");
        }
      }
      var index := JobIndex(jobID);
      if index < 0 {
        return Err("job not found");
      }
      var job := jobs[index];
      if job.status != Pending || job.notBefore > now {
        return Err("job is not ready");
      }
      job := job.(status := Leased);
      if leaseTTL > 0 {
        job := job.(lease := Some(now + leaseTTL));
      }
      jobs := jobs[index := job];
      return Ok(job);
    }

    // ----- Single-job transitions -----

    method Complete(jobID: string) returns (r: Result<Job>)
      modifies this`jobs
      ensures (State(), r) == Spec.Complete(old(State()), jobID)
    {
      var index := JobIndex(jobID);
      if index < 0 {
        return Err("job not found");
      }
      var job := jobs[index];
      if Terminal(job.status) {
        return Ok(job);
      }
      job := job.(status := Succeeded, lease := None, lastError := "");
      jobs := jobs[index := job];
      return Ok(job);
    }

    method Pause(jobID: string) returns (r: Result<Job>)
      modifies this`jobs
      ensures (State(), r) == Spec.Pause(old(State()), jobID)
    {
      var index := JobIndex(jobID);
      if index < 0 {
        return Err("job not found");
      }
      var job := jobs[index];
      if Terminal(job.status) {
        return Err("job is already terminal");
      }
      job := job.(status := Paused, lease := None);
      jobs := jobs[index := job];
      return Ok(job);
    }

    method Resume(jobID: string, now: int) returns (r: Result<Job>)
      modifies this`jobs
      ensures (State(), r) == Spec.Resume(old(State()), jobID, now)
    {
      var index := JobIndex(jobID);
      if index < 0 {
        return Err("job not found");
      }
      var job := jobs[index];
      if job.status != Paused {
        return Err("job is not paused");
      }
      job := job.(status := Pending, notBefore := now, lease := None);
      jobs := jobs[index := job];
      return Ok(job);
    }

    method Cancel(jobID: string) returns (r: Result<Job>)
      modifies this`jobs
      ensures (State(), r) == Spec.Cancel(old(State()), jobID)
    {
      var index := JobIndex(jobID);
      if index < 0 {
        return Err("job not found");
      }
      var job := jobs[index];
      if Terminal(job.status) {
        return Err("job is already terminal");
      }
      job := job.(status := Canceled, lease := None);
      jobs := jobs[index := job];
      return Ok(job);
    }

    method CancelByCorrelation(correlationID: string) returns (canceled: seq<Job>)
      modifies this`jobs
      ensures (State(), canceled) == Spec.CancelByCorrelation(old(State()), correlationID)
    {
      hide Trim, Spec.Select, Spec.Map, Terminal;
      var c := TrimGo(correlationID);
      canceled := [];
      if c == "" {
        return;
      }
      var index := 0;
      while index < |jobs|
        invariant 0 <= index <= |jobs| == |old(jobs)|
        invariant forall k :: 0 <= k < index ==>
          jobs[k] == if Spec.InCorrelation(old(jobs)[k], c) then Spec.CanceledJob(old(jobs)[k]) else old(jobs)[k]
        invariant forall k :: index <= k < |jobs| ==> jobs[k] == old(jobs)[k]
        invariant canceled == Spec.CanceledJobs(old(jobs)[..index], c)
      {
        var job := jobs[index];
        CanceledStep(old(jobs), index, c);
        if job.correlationID == c && !Terminal(job.status) {
          job := job.(status := Canceled, lease := None);
          jobs := jobs[index := job];
          canceled := canceled + [job];
        }
        index := index + 1;
      }
      assert old(jobs)[..|jobs|] == old(jobs);
      assert jobs == Spec.CancelAll(old(jobs), c);
    }

    // ----- Failing and replaying -----

    method Fail(jobID: string, err: Option<string>, now: int, baseBackoff: int, recordID: string)
      returns (r: Result<(Job, Option<DeadLetterRecord>)>)
      modifies this
      ensures (State(), r) == Spec.Fail(old(State()), jobID, err, now, baseBackoff, recordID)
    {
      var index := JobIndex(jobID);
      if index < 0 {
        return Err("job not found");
      }
      var job := jobs[index];
      if Terminal(job.status) {
        return Err("job is already terminal");
      }
      job := job.(attempts := job.attempts + 1, lastError := "");
      if err.Some? {
        job := job.(lastError := err.value);
      }
      job := job.(lease := None);
      if job.attempts >= job.maxAttempts {
        job := job.(status := DeadLetter);
        var record := RecordFor(job, err, now, recordID);
        jobs := jobs[index := job];
        deadLetters := deadLetters + [record];
        failureCount := failureCount + 1;
        return Ok((job, Some(record)));
      }
      job := job.(status := Pending);
      var backoff := baseBackoff;
      if backoff <= 0 {
        backoff := ONE_SECOND;
      }
      job := job.(notBefore := now + Wrap64(backoff * Pow2(job.attempts - 1)));
      jobs := jobs[index := job];
      retryCount := retryCount + 1;
      return Ok((job, None));
    }

    method FailNonRetryable(jobID: string, err: Option<string>, now: int, recordID: string)
      returns (r: Result<(Job, DeadLetterRecord)>)
      modifies this
      ensures (State(), r) == Spec.FailNonRetryable(old(State()), jobID, err, now, recordID)
    {
      var index := JobIndex(jobID);
      if index < 0 {
        return Err("job not found");
      }
      var job := jobs[index];
      if Terminal(job.status) {
        return Err("job is already terminal");
      }
      job := job.(attempts := job.attempts + 1);
      if job.attempts < job.maxAttempts {
        job := job.(attempts := job.maxAttempts);
      }
      job := job.(lastError := "");
      if err.Some? {
        job := job.(lastError := err.value);
      }
      job := job.(lease := None, notBefore := now, status := DeadLetter);
      var record := RecordFor(job, err, now, recordID);
      jobs := jobs[index := job];
      deadLetters := deadLetters + [record];
      failureCount := failureCount + 1;
      return Ok((job, record));
    }

    method ReplayDeadLetter(recordID: string, correlationID: string, now: int,
                            payload: Option<string>, clock: int, newID: string)
      returns (r: Result<(Job, bool)>)
      modifies this
      ensures (State(), r) == Spec.ReplayDeadLetter(old(State()), recordID, correlationID, now, payload, clock, newID)
    {
      hide NewQueueJob;
      var index := RecordIndex(recordID);
      if index < 0 {
        return Err("dead-letter record not found");
      }
      var record := deadLetters[index].(replayedAt := Some(now));
      deadLetters := deadLetters[index := record];
      var created := CreateReplay(record, correlationID, payload, clock, newID);
      if created.Err? {
        return Err(created.message);
      }
      var job := created.value;
      var existing := FindActive(job.dedupeKey);
      if existing >= 0 {
        return Ok((jobs[existing], true));
      }
      jobs := jobs + [job];
      replayCount := replayCount + 1;
      return Ok((job, false));
    }

    static method CreateReplay(record: DeadLetterRecord, correlationID: string, payload: Option<string>, clock: int, newID: string)
      returns (r: Result<Job>)
      ensures r == Spec.ReplayedJob(record, correlationID, payload, clock, newID)
    {
      r := NewQueueJob(Spec.ReplayInput(record, correlationID), payload, clock, newID);
      if r.Ok? && r.value.correlationID == "" {
        r := Ok(r.value.(correlationID := record.correlationID));
      }
    }
  }

  lemma CanceledStep(jobs: seq<Job>, index: nat, c: string)
    requires index < |jobs|
    ensures Spec.CanceledJobs(jobs[..index + 1], c)
            == Spec.CanceledJobs(jobs[..index], c)
               + if Spec.InCorrelation(jobs[index], c) then [Spec.CanceledJob(jobs[index])] else []
  {
    assert jobs[..index + 1][..index] == jobs[..index];
  }
}
