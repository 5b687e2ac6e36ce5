/** What every reachable queue state satisfies: the life of a job, uniqueness of active
    work and of identifiers, and the retry budget. */
module QueueInvariants {
  import opened Common
  import opened Jobs
  import opened QueueSpec
  import opened QueueEvents

  // ----- The life of a job -----

  /** Attempts run out exactly at death, only a leased job has a lease deadline (it has none
      when the lease was taken without a time to live), and the queue never produces the
      running and failed statuses. */
  predicate Sound(j: Job) {
    && j.attempts <= j.maxAttempts && j.maxAttempts > 0
    && (j.status == DeadLetter <==> j.attempts == j.maxAttempts)
    && (j.lease.Some? ==> j.status == Leased)
    && j.status != Failed && j.status != Running
  }

  /** What every transition keeps of a job: its place in the books and the invariant. A
      finished job stays as it is, an inactive one does not become active. */
  predicate Evolves(j: Job, j': Job) {
    && j'.id == j.id && j'.dedupeKey == j.dedupeKey && j'.maxAttempts == j.maxAttempts
    && (Terminal(j.status) ==> j' == j)
    && (Active(j'.status) ==> Active(j.status))
    && j.attempts <= j'.attempts
  }

  lemma LeasingEvolves(j: Job, j': Job, now: int, ttl: int)
    requires Sound(j) && LeaseStep(j, j', now, ttl)
    ensures Sound(j') && Evolves(j, j')
  {
  }

  lemma ReapingEvolves(j: Job, now: int)
    requires Sound(j)
    ensures Sound(Reap(j, now)) && Evolves(j, Reap(j, now))
  {
  }

  lemma FailingEvolves(j: Job, err: Option<string>, now: int, backoff: int)
    requires Sound(j) && !Terminal(j.status)
    ensures Sound(FailOnce(j, err, now, backoff)) && Evolves(j, FailOnce(j, err, now, backoff))
    ensures Sound(FailForGood(j, err, now)) && Evolves(j, FailForGood(j, err, now))
  {
    hide RetryDelay;
  }

  lemma SoundStep(j: Job, j': Job, e: Event)
    requires Sound(j) && JobStep(j, j', e) && !e.op.RestoreOp?
    ensures Sound(j')
    ensures j'.id == j.id && j'.dedupeKey == j.dedupeKey && j'.maxAttempts == j.maxAttempts
    ensures Terminal(j.status) ==> j' == j
    ensures Active(j'.status) ==> Active(j.status)
    ensures j.attempts <= j'.attempts
  {
    hide FailOnce, FailForGood, LeaseStep, Reap;
    match e.op {
      case ExportOp => ReapingEvolves(j, e.now);
      case LeaseReadyOp(_, _, ttl) => LeasingEvolves(j, j', e.now, ttl);
      case LeaseJobOp(_, _, ttl) => LeasingEvolves(j, j', e.now, ttl);
      case FailOp(id, err, backoff, _) =>
        if j' != j {
          FailingEvolves(j, err, e.now, backoff);
        }
      case FailNonRetryableOp(id, err, _) =>
        if j' != j {
          FailingEvolves(j, err, e.now, 0);
        }
      case _ =>
    }
  }

  predicate AllSound(s: QueueState) { forall k :: 0 <= k < |s.jobs| ==> Sound(s.jobs[k]) }

  lemma AddedIsSound(j: Job)
    requires Brandnew(j)
    ensures Sound(j)
  {
  }

  /** One step, and the job it adds if any: new to the queue and untouched. */
  lemma StepsAt(states: seq<QueueState>, events: seq<Event>, i: nat)
    requires Run(states, events) && i < |events| && !events[i].op.RestoreOp?
    ensures |states[i].jobs| <= |states[i + 1].jobs| <= |states[i].jobs| + 1
    ensures forall k :: 0 <= k < |states[i].jobs| ==> JobStep(states[i].jobs[k], states[i + 1].jobs[k], events[i])
    ensures |states[i + 1].jobs| > |states[i].jobs| ==>
              Brandnew(states[i + 1].jobs[|states[i].jobs|]) && IndexOf(states[i].jobs, states[i + 1].jobs[|states[i].jobs|].id) < 0
  {
    hide Apply, JobStep, Brandnew;
    assert states[i + 1] == Apply(states[i], events[i]) && Lawful(states, events, i);
    Steps(states[i], events[i]);
  }

  lemma AllSoundStep(states: seq<QueueState>, events: seq<Event>, i: nat)
    requires Run(states, events) && i < |events| && !events[i].op.RestoreOp?
    requires AllSound(states[i])
    ensures AllSound(states[i + 1])
    ensures |states[i].jobs| <= |states[i + 1].jobs| <= |states[i].jobs| + 1
    ensures forall k :: 0 <= k < |states[i].jobs| ==> JobStep(states[i].jobs[k], states[i + 1].jobs[k], events[i])
    ensures |states[i + 1].jobs| > |states[i].jobs| ==>
              Brandnew(states[i + 1].jobs[|states[i].jobs|]) && IndexOf(states[i].jobs, states[i + 1].jobs[|states[i].jobs|].id) < 0
  {
    hide Apply, Lawful, JobStep, Brandnew, Sound, IndexOf;
    var s, s', e := states[i], states[i + 1], events[i];
    StepsAt(states, events, i);
    forall k | 0 <= k < |s'.jobs|
      ensures Sound(s'.jobs[k])
    {
      if k < |s.jobs| {
        SoundStep(s.jobs[k], s'.jobs[k], e);
      } else {
        AddedIsSound(s'.jobs[k]);
      }
    }
  }

  /** Every job of every reachable state is sound. */
  lemma {:induction false} JobsStaySound(states: seq<QueueState>, events: seq<Event>, n: nat)
    requires Run(states, events) && n < |states|
    ensures forall m :: 0 <= m <= n ==> AllSound(states[m])
  {
    if n > 0 {
      JobsStaySound(states, events, n - 1);
      if events[n - 1].op.RestoreOp? {
        RestoreGoesBack(states, events, n - 1);
      } else {
        AllSoundStep(states, events, n - 1);
      }
    }
  }

  /** A finished job is never touched again, except that a restore can go back to a time
      before it was finished. */
  lemma {:induction false} TerminalForever(states: seq<QueueState>, events: seq<Event>, m: nat, n: nat, k: nat)
    requires Run(states, events) && m <= n < |states| && Stems(states, events, m, n)
    requires k < |states[m].jobs| && Terminal(states[m].jobs[k].status)
    ensures k < |states[n].jobs| && states[n].jobs[k] == states[m].jobs[k]
    decreases n
  {
    hide JobStep, Apply, Lawful, Sound;
    if m < n {
      if events[n - 1].op.RestoreOp? {
        RestoreGoesBack(states, events, n - 1);
        TerminalForever(states, events, m, events[n - 1].op.exportedAt, k);
      } else {
        TerminalForever(states, events, m, n - 1, k);
        JobsStaySound(states, events, n - 1);
        AllSoundStep(states, events, n - 1);
        SoundStep(states[n - 1].jobs[k], states[n].jobs[k], events[n - 1]);
      }
    }
  }

  // ----- At most one active job per key -----

  predicate Unique(s: QueueState) {
    forall i, j :: 0 <= i < j < |s.jobs| && s.jobs[i].dedupeKey != "" && s.jobs[i].dedupeKey == s.jobs[j].dedupeKey
      ==> !(Active(s.jobs[i].status) && Active(s.jobs[j].status))
  }

  predicate NoPlainEnqueue(events: seq<Event>) {
    forall i :: 0 <= i < |events| ==> !events[i].op.EnqueueOp?
  }

  lemma UniqueStep(s: QueueState, e: Event)
    requires AllSound(s) && Unique(s) && !e.op.RestoreOp? && !e.op.EnqueueOp?
    ensures Unique(Apply(s, e))
  {
    hide Apply, JobStep, Sound, Brandnew;
    var s' := Apply(s, e);
    Steps(s, e);
    forall i, j | 0 <= i < j < |s'.jobs| && s'.jobs[i].dedupeKey != "" && s'.jobs[i].dedupeKey == s'.jobs[j].dedupeKey
      ensures !(Active(s'.jobs[i].status) && Active(s'.jobs[j].status))
    {
      SoundStep(s.jobs[i], s'.jobs[i], e);
      if j < |s.jobs| {
        SoundStep(s.jobs[j], s'.jobs[j], e);
      } else {
        assert !SameWork(s.jobs[i], s'.jobs[j].dedupeKey);
      }
    }
  }

  /** Through unique enqueueing, leasing, completing, failing, pausing, resuming, canceling,
      replaying and restoring its own exports, the queue holds each piece of work at most
      once. */
  lemma {:induction false} AtMostOneActive(states: seq<QueueState>, events: seq<Event>, n: nat)
    requires Run(states, events) && n < |states| && NoPlainEnqueue(events)
    ensures forall m :: 0 <= m <= n ==> Unique(states[m])
  {
    if n > 0 {
      AtMostOneActive(states, events, n - 1);
      if events[n - 1].op.RestoreOp? {
        RestoreGoesBack(states, events, n - 1);
      } else {
        JobsStaySound(states, events, n - 1);
        UniqueStep(states[n - 1], events[n - 1]);
      }
    }
  }

  /** Plain `Enqueue` keeps the queue unique exactly when the key is free (or the key is
      empty, or the job is refused for want of an identifier). */
  lemma PlainEnqueueUnique(s: QueueState, job: Job)
    requires Unique(s) && Active(job.status)
    ensures Unique(Enqueue(s, job).0) <==> job.id == "" || IndexOfActive(s.jobs, job.dedupeKey) < 0
  {
    var s' := Enqueue(s, job).0;
    var i := IndexOfActive(s.jobs, job.dedupeKey);
    if job.id != "" {
      var n := |s.jobs|;
      assert s'.jobs[n] == job;
      if i >= 0 {
        assert s'.jobs[i] == s.jobs[i];
      } else {
        forall k, j | 0 <= k < j < |s'.jobs| && s'.jobs[k].dedupeKey != "" && s'.jobs[k].dedupeKey == s'.jobs[j].dedupeKey
          ensures !(Active(s'.jobs[k].status) && Active(s'.jobs[j].status))
        {
          assert s'.jobs[k] == s.jobs[k];
          if j < n {
            assert s'.jobs[j] == s.jobs[j];
          } else {
            assert !SameWork(s.jobs[k], job.dedupeKey);
          }
        }
      }
    }
  }

  /** A unique enqueue reports a duplicate exactly when the work is active already, and then
      changes nothing. */
  lemma DuplicateIffActive(s: QueueState, job: Job)
    requires job.id != ""
    ensures var (s', r) := EnqueueUnique(s, job);
            && r.Ok?
            && (r.value.1 <==> exists k :: 0 <= k < |s.jobs| && SameWork(s.jobs[k], job.dedupeKey))
            && (r.value.1 ==> s' == s && r.value.0 in s.jobs && r.value.0.dedupeKey == job.dedupeKey && Active(r.value.0.status))
            && (!r.value.1 ==> r.value.0 == job && s'.jobs == s.jobs + [job])
  {
    var i := IndexOfActive(s.jobs, job.dedupeKey);
    if i < 0 {
      assert forall k :: 0 <= k < |s.jobs| ==> !SameWork(s.jobs[k], job.dedupeKey);
    } else {
      assert SameWork(s.jobs[i], job.dedupeKey);
    }
  }

  // ----- Accepted failures -----

  /** `e` is a failure report for `id` that the queue accepts. */
  predicate FailureAccepted(s: QueueState, e: Event, id: string) {
    match e.op
    case FailOp(x, _, _, _) => x == id && Failable(s, id)
    case FailNonRetryableOp(x, _, _) => x == id && Failable(s, id)
    case _ => false
  }

  /** A resume is accepted for a paused job only. */
  predicate Resumable(s: QueueState, id: string) {
    var i := IndexOf(s.jobs, id);
    i >= 0 && s.jobs[i].status == Paused
  }

  /** The failures accepted so far; a restore goes back to the number at the export. */
  function FailuresAccepted(states: seq<QueueState>, events: seq<Event>, id: string, n: nat): nat
    requires |states| == |events| + 1 && n <= |events|
  {
    if n == 0 then 0
    else
      match events[n - 1].op
      case RestoreOp(_, k) => if k < n then FailuresAccepted(states, events, id, k) else 0
      case _ => FailuresAccepted(states, events, id, n - 1) + if FailureAccepted(states[n - 1], events[n - 1], id) then 1 else 0
  }

  /** An accepted failure uses up at least one of the remaining attempts. */
  lemma FailureCosts(s: QueueState, e: Event, id: string)
    requires AllSound(s) && FailureAccepted(s, e, id)
    ensures var i := IndexOf(s.jobs, id);
            var s' := Apply(s, e);
            && 0 <= i < |s'.jobs| && s'.jobs[i].maxAttempts == s.jobs[i].maxAttempts
            && s.jobs[i].attempts < s'.jobs[i].attempts <= s'.jobs[i].maxAttempts
  {
    hide Wrap64, Pow2;
  }

  predicate UniqueIds(jobs: seq<Job>) { forall i, j :: 0 <= i < j < |jobs| ==> jobs[i].id != jobs[j].id }

  lemma UniqueIdsStep(states: seq<QueueState>, events: seq<Event>, i: nat)
    requires Run(states, events) && i < |events| && !events[i].op.RestoreOp?
    requires AllSound(states[i]) && UniqueIds(states[i].jobs)
    ensures UniqueIds(states[i + 1].jobs)
  {
    hide Apply, Lawful, JobStep, Sound;
    AllSoundStep(states, events, i);
    var s, s', e := states[i], states[i + 1], events[i];
    forall k | 0 <= k < |s.jobs|
      ensures s'.jobs[k].id == s.jobs[k].id
    {
      SoundStep(s.jobs[k], s'.jobs[k], e);
    }
  }

  /** No two jobs of a reachable state share an identifier. */
  lemma {:induction false} IdsStayUnique(states: seq<QueueState>, events: seq<Event>, n: nat)
    requires Run(states, events) && n < |states|
    ensures forall m :: 0 <= m <= n ==> UniqueIds(states[m].jobs)
  {
    hide Apply, Lawful, AllSound;
    if n > 0 {
      IdsStayUnique(states, events, n - 1);
      JobsStaySound(states, events, n - 1);
      if events[n - 1].op.RestoreOp? {
        RestoreGoesBack(states, events, n - 1);
      } else {
        UniqueIdsStep(states, events, n - 1);
      }
    }
  }

  /** The retry budget: the failures accepted for a job, those undone by a restore aside,
      never exceed its attempt count, hence never its maximum. */
  lemma {:induction false} FailuresBounded(states: seq<QueueState>, events: seq<Event>, id: string, n: nat)
    requires Run(states, events) && n < |states|
    ensures var i := IndexOf(states[n].jobs, id);
            var accepted := FailuresAccepted(states, events, id, n);
            if i < 0 then accepted == 0 else accepted <= states[n].jobs[i].attempts <= states[n].jobs[i].maxAttempts
  {
    hide Apply, Lawful, JobStep, Sound, FailureAccepted;
    JobsStaySound(states, events, n);
    if n == 0 {
      assert states[0].jobs == [];
    } else if events[n - 1].op.RestoreOp? {
      RestoreGoesBack(states, events, n - 1);
      FailuresBounded(states, events, id, events[n - 1].op.exportedAt);
    } else {
      FailuresBounded(states, events, id, n - 1);
      IdsStayUnique(states, events, n);
      AllSoundStep(states, events, n - 1);
      EventApplies(states, events, n - 1);
      var s, s', e := states[n - 1], states[n], events[n - 1];
      var i := IndexOf(s.jobs, id);
      if i >= 0 {
        SoundStep(s.jobs[i], s'.jobs[i], e);
        assert IndexOf(s'.jobs, id) == i;
        AttemptsWithin(s', i);
        if FailureAccepted(s, e, id) {
          FailureCosts(s, e, id);
        }
      } else {
        OnlyQueuedJobsFail(s, e, id);
        var i' := IndexOf(s'.jobs, id);
        if i' >= 0 {
          AttemptsWithin(s', i');
        }
      }
    }
  }

  lemma AttemptsWithin(s: QueueState, i: nat)
    requires AllSound(s) && i < |s.jobs|
    ensures s.jobs[i].attempts <= s.jobs[i].maxAttempts
  {
  }

  lemma OnlyQueuedJobsFail(s: QueueState, e: Event, id: string)
    requires IndexOf(s.jobs, id) < 0
    ensures !FailureAccepted(s, e, id)
  {
  }
}
