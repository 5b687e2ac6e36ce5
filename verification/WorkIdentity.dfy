/** Requests and queue together: the queue never merges different work and never holds the
    same work twice. */
module WorkIdentity {
  import opened Text
  import opened Jobs
  import opened QueueSpec
  import opened QueueEvents
  import opened QueueInvariants
  import R = Requests
  import B = SyncBuilder

  /** The key was printed for a normalised request. */
  predicate PrintedFor(key: string, r: R.Request) { R.Normalized(r) && key == B.DedupeKey(r) }

  ghost predicate KeyOfWork(key: string) { exists r: R.Request :: PrintedFor(key, r) }

  predicate AsksTheSame(r: R.Request, q: R.Request) {
    r.mode == q.mode && B.TargetOf(r) == B.TargetOf(q)
  }

  /** Everything queued or buried is work for some request. */
  ghost predicate AllWork(s: QueueState) {
    && (forall k :: 0 <= k < |s.jobs| ==> KeyOfWork(s.jobs[k].dedupeKey))
    && (forall m :: 0 <= m < |s.deadLetters| ==> KeyOfWork(s.deadLetters[m].dedupeKey))
  }

  /** Jobs enter the queue through unique enqueueing of built jobs, or by replay. */
  ghost predicate OnlyBuiltJobs(events: seq<Event>) {
    forall i :: 0 <= i < |events| ==>
      match events[i].op
      case EnqueueOp(_) => false
      case RecordDeadLetterOp(_, _, _) => false
      case EnqueueUniqueOp(job) => KeyOfWork(job.dedupeKey)
      case _ => true
  }

  lemma KeysStayTrimmed(key: string)
    requires KeyOfWork(key)
    ensures TrimGo(key) == key && key != ""
  {
    var r :| PrintedFor(key, r);
    B.KeyIsPlain(r);
  }

  lemma RecordsStayWork(s: QueueState, e: Event)
    requires AllWork(s) && !e.op.RestoreOp? && !e.op.RecordDeadLetterOp?
    ensures forall m :: 0 <= m < |Apply(s, e).deadLetters| ==> KeyOfWork(Apply(s, e).deadLetters[m].dedupeKey)
  {
    hide KeyOfWork, NewQueueJob, GrantChosen, ReapAll, CancelAll, Wrap64, Pow2, TrimGo;
  }

  lemma ReplayIsWork(s: QueueState, e: Event)
    requires AllWork(s) && e.op.ReplayOp? && |Apply(s, e).jobs| > |s.jobs|
    ensures KeyOfWork(Apply(s, e).jobs[|s.jobs|].dedupeKey)
  {
    hide KeyOfWork, TrimGo;
    var i := IndexOfRecord(s.deadLetters, e.op.recordID);
    KeysStayTrimmed(s.deadLetters[i].dedupeKey);
  }

  lemma AllWorkStep(s: QueueState, e: Event)
    requires AllSound(s) && AllWork(s) && OnlyBuiltJobs([e]) && !e.op.RestoreOp?
    ensures AllWork(Apply(s, e))
  {
    hide KeyOfWork, Apply, JobStep;
    var s' := Apply(s, e);
    assert [e][0] == e;
    Steps(s, e);
    RecordsStayWork(s, e);
    forall k | 0 <= k < |s'.jobs|
      ensures KeyOfWork(s'.jobs[k].dedupeKey)
    {
      if k < |s.jobs| {
        SoundStep(s.jobs[k], s'.jobs[k], e);
      } else if e.op.ReplayOp? {
        ReplayIsWork(s, e);
      }
    }
  }

  /** In a run fed by built requests, every job and every dead-letter record, replays
      included, is work for some request. */
  lemma {:induction false} EverythingIsWork(states: seq<QueueState>, events: seq<Event>, n: nat)
    requires Run(states, events) && n < |states| && OnlyBuiltJobs(events)
    ensures forall m :: 0 <= m <= n ==> AllWork(states[m])
  {
    hide Apply, Lawful, AllWork;
    if n == 0 {
      assert AllWork(EMPTY) by { EmptyIsWork(); }
    } else {
      EverythingIsWork(states, events, n - 1);
      if events[n - 1].op.RestoreOp? {
        RestoreGoesBack(states, events, n - 1);
      } else {
        JobsStaySound(states, events, n - 1);
        EventApplies(states, events, n - 1);
        assert OnlyBuiltJobs([events[n - 1]]);
        AllWorkStep(states[n - 1], events[n - 1]);
      }
    }
  }

  lemma EmptyIsWork()
    ensures AllWork(EMPTY)
  {
  }

  /** Two different active jobs are never the same work: whatever requests their keys were
      printed for, the requests ask for different things. */
  lemma WorkHeldOnce(states: seq<QueueState>, events: seq<Event>, n: nat, i: nat, k: nat)
    requires Run(states, events) && n < |states| && OnlyBuiltJobs(events)
    requires i < |states[n].jobs| && k < |states[n].jobs| && i != k
    requires Active(states[n].jobs[i].status) && Active(states[n].jobs[k].status)
    ensures KeyOfWork(states[n].jobs[i].dedupeKey) && KeyOfWork(states[n].jobs[k].dedupeKey)
    ensures forall r, q ::
              (PrintedFor(states[n].jobs[i].dedupeKey, r) && PrintedFor(states[n].jobs[k].dedupeKey, q)) ==> !AsksTheSame(r, q)
  {
    hide Apply, Lawful, R.Normalized, B.DedupeKey, B.TargetOf;
    EverythingIsWork(states, events, n);
    AtMostOneActive(states, events, n);
    KeysStayTrimmed(states[n].jobs[i].dedupeKey);
    assert Unique(states[n]);
    forall r, q | PrintedFor(states[n].jobs[i].dedupeKey, r) && PrintedFor(states[n].jobs[k].dedupeKey, q)
      ensures !AsksTheSame(r, q)
    {
      B.SameKeySameWork(r, q);
    }
  }

  /** A built job is merged exactly into an active job that is the same work. */
  lemma MergedExactlyIntoSameWork(s: QueueState, job: Job, r: R.Request)
    requires AllWork(s) && PrintedFor(job.dedupeKey, r) && job.id != ""
    ensures EnqueueUnique(s, job).1.Ok?
    ensures EnqueueUnique(s, job).1.value.1 <==>
              exists k, q :: 0 <= k < |s.jobs| && Active(s.jobs[k].status) && PrintedFor(s.jobs[k].dedupeKey, q) && AsksTheSame(q, r)
  {
    hide R.Normalized, B.DedupeKey, B.TargetOf;
    B.KeyIsPlain(r);
    DuplicateIffActive(s, job);
    forall k, q | 0 <= k < |s.jobs| && PrintedFor(s.jobs[k].dedupeKey, q)
      ensures s.jobs[k].dedupeKey == job.dedupeKey <==> AsksTheSame(q, r)
    {
      B.SameKeySameWork(q, r);
    }
    if EnqueueUnique(s, job).1.value.1 {
      var k := IndexOfActive(s.jobs, job.dedupeKey);
      assert KeyOfWork(s.jobs[k].dedupeKey);
      assert AsksTheSame(r, r);
      assert 0 <= k < |s.jobs| && Active(s.jobs[k].status) && PrintedFor(s.jobs[k].dedupeKey, r);
    } else {
      forall k, q | 0 <= k < |s.jobs| && Active(s.jobs[k].status) && PrintedFor(s.jobs[k].dedupeKey, q)
        ensures !AsksTheSame(q, r)
      {
        assert !SameWork(s.jobs[k], job.dedupeKey);
      }
    }
  }
}
