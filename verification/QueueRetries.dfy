/** Retries: how long a failing job backs off before it dies, and the ledger that ties
    attempts, retries, failures and dead-letter records together. */
module QueueRetries {
  import opened Common
  import opened Text
  import opened Jobs
  import opened QueueSpec
  import opened QueueEvents
  import opened QueueInvariants

  // ----- Backing off -----

  lemma {:induction false} Pow2Monotone(m: nat, n: nat)
    requires m <= n
    ensures Pow2(m) <= Pow2(n)
  {
    if m < n {
      Pow2Monotone(m, n - 1);
    }
  }

  /** Time lost to backoff before the attempt after the `k`-th failure: b + 2b + ... */
  function TotalBackoff(b: nat, k: nat): nat { b * (Pow2(k) - 1) }

  lemma NextBackoff(b: nat, k: nat)
    ensures TotalBackoff(b, k + 1) == TotalBackoff(b, k) + b * Pow2(k)
  {
    assert Pow2(k + 1) - 1 == (Pow2(k) - 1) + Pow2(k);
    assert b * ((Pow2(k) - 1) + Pow2(k)) == b * (Pow2(k) - 1) + b * Pow2(k);
  }

  /** No delay computed before the last attempt of `max` leaves 64 bits. */
  predicate BackoffFits(b: nat, max: int) { max < 2 || b * Pow2(max - 2) < TWO_TO_THE_63 }

  lemma DelayFits(b: nat, k: nat, max: int)
    requires b > 0 && 1 <= k < max && BackoffFits(b, max)
    ensures RetryDelay(b, k) == b * Pow2(k - 1)
  {
    Pow2Monotone(k - 1, max - 2);
    assert b * Pow2(k - 1) <= b * Pow2(max - 2);
    RetryDelayExact(b, k);
  }

  /** That is exactly the condition under which every backoff of the job is the doubling one. */
  lemma BackoffFitsExactly(b: nat, max: int)
    requires b > 0
    ensures BackoffFits(b, max) <==> forall k :: 1 <= k < max ==> RetryDelay(b, k) == b * Pow2(k - 1)
  {
    if BackoffFits(b, max) {
      forall k | 1 <= k < max
        ensures RetryDelay(b, k) == b * Pow2(k - 1)
      {
        DelayFits(b, k, max);
      }
    } else {
      RetryDelayExact(b, max - 1);
    }
  }

  /** One second doubled 34 times is the first to wrap round: the 35th retry is due before its
      failure. */
  lemma BackoffWrapsRound()
    ensures RetryDelay(ONE_SECOND, 35) < 0
    ensures forall k :: 1 <= k < 35 ==> RetryDelay(ONE_SECOND, k) == ONE_SECOND * Pow2(k - 1)
  {
    LargePowers();
    BackoffFitsExactly(ONE_SECOND, 35);
  }

  lemma LargePowers()
    ensures Pow2(33) == 0x2_0000_0000 && Pow2(34) == 0x4_0000_0000 && Pow2(64) == 2 * TWO_TO_THE_63
  {
    hide Pow2;
    SmallPower();
    Pow2Plus(1, 1);
    Pow2Plus(2, 2);
    Pow2Plus(4, 4);
    Pow2Plus(8, 8);
    Pow2Plus(16, 16);
    Pow2Plus(32, 1);
    Pow2Plus(33, 1);
    Pow2Plus(32, 32);
  }

  lemma SmallPower()
    ensures Pow2(1) == 2
  {
  }

  lemma WholeTurns(k: int)
    ensures Wrap64(2 * TWO_TO_THE_63 * k) == 0
  {
  }

  /** From the 65th failure on nothing is left of any backoff: the job is retried at once. */
  lemma BackoffVanishes(backoff: int, attempts: nat)
    requires attempts >= 65
    ensures RetryDelay(backoff, attempts) == 0
  {
    hide Wrap64, Pow2;
    LargePowers();
    Pow2Plus(64, attempts - 65);
    var b, p := if backoff <= 0 then ONE_SECOND else backoff, Pow2(attempts - 65);
    assert b * (2 * TWO_TO_THE_63 * p) == 2 * TWO_TO_THE_63 * (b * p);
    WholeTurns(b * p);
  }

  lemma {:induction false} Pow2Plus(m: nat, n: nat)
    ensures Pow2(m + n) == Pow2(m) * Pow2(n)
  {
    if n > 0 {
      Pow2Plus(m, n - 1);
    }
  }

  /** The schedule a failing job is on since its first failure at `start`: after `attempts`
      failures it is not due before the backoffs so far have passed, and it was due when
      it was leased. */
  predicate OnSchedule(j: Job, start: int, b: nat, now: int) {
    || Terminal(j.status)
    || (&& 1 <= j.attempts < j.maxAttempts
        && j.notBefore >= start + TotalBackoff(b, j.attempts)
        && (j.status == Leased ==> now >= j.notBefore))
  }

  /** The failures of `id` are the ones the schedule is about: reported for a leased job,
      with the fixed backoff; no resume and no immediate burial is accepted. */
  predicate Disciplined(s: QueueState, e: Event, id: string, b: nat) {
    match e.op
    case FailOp(x, _, backoff, _) =>
      x == id && Failable(s, id) ==> backoff == b && s.jobs[IndexOf(s.jobs, id)].status == Leased
    case FailNonRetryableOp(x, _, _) => x == id ==> !Failable(s, id)
    case ResumeOp(x) => x == id ==> !Resumable(s, id)
    case _ => true
  }

  /** Every event on the way from state `a` to state `n` keeps the discipline. */
  predicate KeepsDiscipline(states: seq<QueueState>, events: seq<Event>, a: nat, n: nat, id: string, b: nat)
    requires |states| == |events| + 1 && n <= |events|
  {
    Throughout(states, events, a, n, (s, e) => Disciplined(s, e, id, b))
  }

  lemma FailOnSchedule(j: Job, err: Option<string>, start: int, b: nat, now: int)
    requires Sound(j) && b > 0 && BackoffFits(b, j.maxAttempts) && j.status == Leased
    requires OnSchedule(j, start, b, now) || (j.attempts == 0 && start <= now)
    ensures var j' := FailOnce(j, err, now, b);
            && OnSchedule(j', start, b, now)
            && now >= start + TotalBackoff(b, j.attempts)
            && j'.attempts == j.attempts + 1
  {
    hide Wrap64, Pow2;
    assert TotalBackoff(b, 0) == 0 by { assert Pow2(0) == 1 by { PowZero(); } }
    var k := j.attempts + 1;
    if k < j.maxAttempts {
      hide RetryDelay;
      DelayFits(b, k, j.maxAttempts);
      NextBackoff(b, j.attempts);
    }
  }

  lemma PowZero()
    ensures Pow2(0) == 1
  {
  }

  lemma ScheduleStep(s: QueueState, s': QueueState, e: Event, k: nat, start: int, b: nat, now: int)
    requires k < |s.jobs| && k < |s'.jobs| && JobStep(s.jobs[k], s'.jobs[k], e) && !e.op.RestoreOp?
    requires UniqueIds(s.jobs) && Sound(s.jobs[k]) && now <= e.now && b > 0 && BackoffFits(b, s.jobs[k].maxAttempts)
    requires Disciplined(s, e, s.jobs[k].id, b)
    requires OnSchedule(s.jobs[k], start, b, now)
    ensures OnSchedule(s'.jobs[k], start, b, e.now)
  {
    hide Wrap64, Pow2, TotalBackoff;
    var j := s.jobs[k];
    assert IndexOf(s.jobs, j.id) == k;
    if e.op.FailOp? && s'.jobs[k] != j {
      FailOnSchedule(j, e.op.err, start, b, e.now);
    }
  }

  lemma OnScheduleLater(j: Job, start: int, b: nat, before: int, now: int)
    requires OnSchedule(j, start, b, before) && before <= now
    ensures OnSchedule(j, start, b, now)
  {
    hide TotalBackoff;
  }

  lemma OnScheduleAtOnce(states: seq<QueueState>, events: seq<Event>, a: nat, id: string, b: nat)
    requires Run(states, events) && a < |events| && b > 0
    requires events[a].op.FailOp? && FailureAccepted(states[a], events[a], id) && Disciplined(states[a], events[a], id, b)
    requires var j := states[a].jobs[IndexOf(states[a].jobs, id)]; j.attempts == 0 && BackoffFits(b, j.maxAttempts)
    ensures var k := IndexOf(states[a + 1].jobs, id);
            && k == IndexOf(states[a].jobs, id) && states[a + 1].jobs[k].maxAttempts == states[a].jobs[k].maxAttempts
            && OnSchedule(states[a + 1].jobs[k], events[a].now, b, events[a].now)
  {
    hide Apply, JobStep, Lawful, Sound, OnSchedule, BackoffFits, Terminal;
    JobsStaySound(states, events, a);
    AllSoundStep(states, events, a);
    EventApplies(states, events, a);
    var s, e := states[a], events[a];
    var k := IndexOf(s.jobs, id);
    SoundStep(s.jobs[k], states[a + 1].jobs[k], e);
    FailOnSchedule(s.jobs[k], e.op.err, e.now, b, e.now);
    FailIsFailOnce(s, e, id);
    FailKeepsIndex(s, e, id);
  }

  /** From its first failure on, the job stays on schedule, through every restore that does
      not go back behind that failure. */
  lemma {:induction false} StaysOnSchedule(states: seq<QueueState>, events: seq<Event>, a: nat, m: nat, id: string, b: nat)
    requires Run(states, events) && a < m <= |events| && b > 0
    requires events[a].op.FailOp? && FailureAccepted(states[a], events[a], id) && Disciplined(states[a], events[a], id, b)
    requires var j := states[a].jobs[IndexOf(states[a].jobs, id)]; j.attempts == 0 && BackoffFits(b, j.maxAttempts)
    requires KeepsDiscipline(states, events, a + 1, m, id, b)
    ensures var j0 := states[a].jobs[IndexOf(states[a].jobs, id)];
            var k := IndexOf(states[m].jobs, id);
            k >= 0 && states[m].jobs[k].maxAttempts == j0.maxAttempts
            && OnSchedule(states[m].jobs[k], events[a].now, b, events[m - 1].now)
    decreases m
  {
    hide Apply, JobStep, Lawful, Sound, OnSchedule, BackoffFits, Terminal, Disciplined;
    if m == a + 1 {
      OnScheduleAtOnce(states, events, a, id, b);
    } else if events[m - 1].op.RestoreOp? {
      RestoreGoesBack(states, events, m - 1);
      var x := events[m - 1].op.exportedAt;
      StaysOnSchedule(states, events, a, x, id, b);
      OnScheduleLater(states[x].jobs[IndexOf(states[x].jobs, id)], events[a].now, b, events[x - 1].now, events[m - 1].now);
    } else {
      StaysOnSchedule(states, events, a, m - 1, id, b);
      IdsStayUnique(states, events, m);
      JobsStaySound(states, events, m - 1);
      AllSoundStep(states, events, m - 1);
      var s, s', e := states[m - 1], states[m], events[m - 1];
      var k := IndexOf(s.jobs, id);
      SoundStep(s.jobs[k], s'.jobs[k], e);
      ScheduleStep(s, s', e, k, events[a].now, b, events[m - 2].now);
      assert IndexOf(s'.jobs, id) == k;
    }
  }

  lemma FailIsFailOnce(s: QueueState, e: Event, id: string)
    requires e.op.FailOp? && FailureAccepted(s, e, id)
    ensures var k := IndexOf(s.jobs, id);
            |Apply(s, e).jobs| == |s.jobs| && Apply(s, e).jobs[k] == FailOnce(s.jobs[k], e.op.err, e.now, e.op.backoff)
  {
    hide FailOnce;
  }

  /** With a fixed backoff `b`, a job of `M` attempts that its failures kill has been
      failing for at least b + 2b + ... + 2^(M-2) b = b (2^(M-1) - 1). */
  lemma BackoffBound(states: seq<QueueState>, events: seq<Event>, a: nat, z: nat, id: string, b: nat)
    requires Run(states, events) && a <= z < |events| && b > 0
    requires events[a].op.FailOp? && FailureAccepted(states[a], events[a], id)
    requires var j := states[a].jobs[IndexOf(states[a].jobs, id)]; j.attempts == 0 && BackoffFits(b, j.maxAttempts)
    requires Disciplined(states[a], events[a], id, b) && Disciplined(states[z], events[z], id, b)
    requires a < z ==> KeepsDiscipline(states, events, a + 1, z, id, b)
    requires events[z].op.FailOp? && FailureAccepted(states[z], events[z], id)
    requires var k := IndexOf(states[z + 1].jobs, id); k >= 0 && states[z + 1].jobs[k].status == DeadLetter
    ensures var M := states[a].jobs[IndexOf(states[a].jobs, id)].maxAttempts;
            M >= 1 && events[z].now >= events[a].now + b * (Pow2(M - 1) - 1)
  {
    hide Apply, Lawful, JobStep, Pow2, BackoffFits;
    JobsStaySound(states, events, z + 1);
    IdsStayUnique(states, events, z);
    assert states[z + 1] == Apply(states[z], events[z]);
    var s, e := states[z], events[z];
    var k := IndexOf(s.jobs, id);
    if a < z {
      StaysOnSchedule(states, events, a, z, id, b);
    }
    FailIsFailOnce(s, e, id);
    assert Disciplined(s, e, id, b);
    assert Sound(s.jobs[k]) && e.now >= events[a].now;
    DyingFailure(s.jobs[k], e.op.err, events[a].now, b, if a < z then events[z - 1].now else e.now, e.now);
    FailKeepsIndex(s, e, id);
  }

  lemma SameIdsSameIndex(jobs: seq<Job>, jobs': seq<Job>, id: string)
    requires |jobs'| == |jobs| && forall i :: 0 <= i < |jobs| ==> jobs'[i].id == jobs[i].id
    ensures IndexOf(jobs', id) == IndexOf(jobs, id)
  {
    var k, k' := IndexOf(jobs, id), IndexOf(jobs', id);
    if k' >= 0 {
      assert jobs[k'].id == id;
    }
    if k >= 0 {
      assert jobs'[k].id == id;
    }
  }

  lemma FailKeepsIndex(s: QueueState, e: Event, id: string)
    requires e.op.FailOp?
    ensures IndexOf(Apply(s, e).jobs, id) == IndexOf(s.jobs, id)
  {
    hide RetryDelay, RecordFor, IndexOf;
    SameIdsSameIndex(s.jobs, Apply(s, e).jobs, id);
  }

  lemma DyingFailure(j: Job, err: Option<string>, start: int, b: nat, before: int, now: int)
    requires Sound(j) && b > 0 && BackoffFits(b, j.maxAttempts) && j.status == Leased && before <= now
    requires OnSchedule(j, start, b, before) || (j.attempts == 0 && start <= now)
    ensures FailOnce(j, err, now, b).status == DeadLetter ==>
              j.attempts == j.maxAttempts - 1 && now >= start + b * (Pow2(j.maxAttempts - 1) - 1)
  {
    hide Pow2, Wrap64, BackoffFits;
    FailOnSchedule(j, err, start, b, now);
  }

  // ----- The failure ledger -----

  function SumAttempts(jobs: seq<Job>): nat {
    if jobs == [] then 0 else SumAttempts(jobs[..|jobs| - 1]) + jobs[|jobs| - 1].attempts
  }

  lemma {:induction false} SumPointwise(before: seq<Job>, after: seq<Job>)
    requires |before| == |after| && forall k :: 0 <= k < |before| ==> after[k].attempts == before[k].attempts
    ensures SumAttempts(after) == SumAttempts(before)
  {
    if before != [] {
      SumPointwise(before[..|before| - 1], after[..|after| - 1]);
    }
  }

  lemma {:induction false} SumUpdate(jobs: seq<Job>, i: nat, job: Job)
    requires i < |jobs|
    ensures SumAttempts(jobs[i := job]) == SumAttempts(jobs) - jobs[i].attempts + job.attempts
  {
    var n := |jobs| - 1;
    if i < n {
      SumUpdate(jobs[..n], i, job);
      assert jobs[i := job][..n] == jobs[..n][i := job];
    } else {
      assert jobs[i := job][..n] == jobs[..n];
    }
  }

  function DeadJobs(jobs: seq<Job>): seq<Job> { Select(jobs, (j: Job) => j.status == DeadLetter) }

  lemma {:induction false} DeadPointwise(before: seq<Job>, after: seq<Job>)
    requires |before| == |after|
    requires forall k :: 0 <= k < |before| ==> (after[k].status == DeadLetter <==> before[k].status == DeadLetter)
    ensures |DeadJobs(after)| == |DeadJobs(before)|
  {
    if before != [] {
      DeadPointwise(before[..|before| - 1], after[..|after| - 1]);
    }
  }

  lemma {:induction false} DeadUpdate(jobs: seq<Job>, i: nat, job: Job)
    requires i < |jobs| && jobs[i].status != DeadLetter && job.status == DeadLetter
    ensures |DeadJobs(jobs[i := job])| == |DeadJobs(jobs)| + 1
  {
    var n := |jobs| - 1;
    if i < n {
      DeadUpdate(jobs[..n], i, job);
      assert jobs[i := job][..n] == jobs[..n][i := job];
    } else {
      assert jobs[i := job][..n] == jobs[..n];
    }
  }

  /** A record and the dead job it is about. */
  predicate Describes(r: DeadLetterRecord, j: Job) {
    && r.jobID == j.id && j.status == DeadLetter
    && r.attempts == j.attempts == j.maxAttempts == r.maxAttempts
    && r.dedupeKey == j.dedupeKey
  }

  predicate Buried(jobs: seq<Job>, r: DeadLetterRecord) {
    exists k :: 0 <= k < |jobs| && Describes(r, jobs[k])
  }

  predicate Filed(records: seq<DeadLetterRecord>, j: Job) {
    exists m :: 0 <= m < |records| && Describes(records[m], j)
  }

  predicate OnePerJob(records: seq<DeadLetterRecord>) {
    forall i, j :: 0 <= i < j < |records| ==> records[i].jobID != records[j].jobID
  }

  /** Dead jobs and records correspond one to one, and the failure counter counts both. */
  predicate Matched(s: QueueState) {
    && OnePerJob(s.deadLetters)
    && (forall i :: 0 <= i < |s.deadLetters| ==> Buried(s.jobs, s.deadLetters[i]))
    && (forall k :: 0 <= k < |s.jobs| && s.jobs[k].status == DeadLetter ==> Filed(s.deadLetters, s.jobs[k]))
    && s.failureCount == |s.deadLetters| == |DeadJobs(s.jobs)|
  }

  /** Every failure ever accepted was either retried or buried its job, and the attempts on
      the books are those failures plus the attempts skipped by immediate burials. */
  predicate Balanced(s: QueueState, skipped: nat) {
    SumAttempts(s.jobs) == s.retryCount + s.failureCount + skipped
  }

  /** The attempts skipped so far by `FailNonRetryable`; a restore goes back to the amount
      at the export. */
  function Skipped(states: seq<QueueState>, events: seq<Event>, n: nat): nat
    requires |states| == |events| + 1 && n <= |events|
  {
    if n == 0 then 0
    else
      match events[n - 1].op
      case RestoreOp(_, k) => if k < n then Skipped(states, events, k) else 0
      case _ => Skipped(states, events, n - 1) + SkippedNow(states[n - 1], events[n - 1])
  }

  function SkippedBy(j: Job): nat { if j.attempts + 1 < j.maxAttempts then j.maxAttempts - j.attempts - 1 else 0 }

  /** A failure buries the job at `i` and files its record. */
  lemma BuryStep(s: QueueState, s': QueueState, i: nat, job: Job, r: DeadLetterRecord)
    requires UniqueIds(s.jobs) && Matched(s) && i < |s.jobs|
    requires s.jobs[i].status != DeadLetter && job.id == s.jobs[i].id && Describes(r, job)
    requires s'.jobs == s.jobs[i := job] && s'.deadLetters == s.deadLetters + [r] && s'.failureCount == s.failureCount + 1
    ensures Matched(s')
  {
    hide DeadJobs, Buried, Filed;
    DeadUpdate(s.jobs, i, job);
    var n := |s.deadLetters|;
    forall m | 0 <= m < n
      ensures s.deadLetters[m].jobID != r.jobID && Buried(s'.jobs, s'.deadLetters[m])
    {
      StillBuried(s.jobs, i, job, s.deadLetters[m]);
    }
    NowBuried(s'.jobs, i, r);
    forall k | 0 <= k < |s'.jobs| && s'.jobs[k].status == DeadLetter
      ensures Filed(s'.deadLetters, s'.jobs[k])
    {
      StillFiled(s.deadLetters, r, s'.jobs[k], k == i);
    }
  }

  lemma StillBuried(jobs: seq<Job>, i: nat, job: Job, r: DeadLetterRecord)
    requires UniqueIds(jobs) && i < |jobs| && jobs[i].status != DeadLetter && Buried(jobs, r)
    ensures r.jobID != jobs[i].id && Buried(jobs[i := job], r)
  {
    var k :| 0 <= k < |jobs| && Describes(r, jobs[k]);
    assert jobs[i := job][k] == jobs[k];
  }

  lemma NowBuried(jobs: seq<Job>, i: nat, r: DeadLetterRecord)
    requires i < |jobs| && Describes(r, jobs[i])
    ensures Buried(jobs, r)
  {
  }

  lemma StillFiled(records: seq<DeadLetterRecord>, r: DeadLetterRecord, j: Job, isNew: bool)
    requires if isNew then Describes(r, j) else Filed(records, j)
    ensures Filed(records + [r], j)
  {
    if isNew {
      assert (records + [r])[|records|] == r;
    } else {
      var m :| 0 <= m < |records| && Describes(records[m], j);
      assert (records + [r])[m] == records[m];
    }
  }

  predicate SameSubject(r: DeadLetterRecord, r': DeadLetterRecord) {
    r'.jobID == r.jobID && r'.attempts == r.attempts && r'.maxAttempts == r.maxAttempts && r'.dedupeKey == r.dedupeKey
  }

  /** An event that kills nobody: dead jobs stay as they are, records keep their subject. */
  lemma CalmStep(s: QueueState, s': QueueState)
    requires Matched(s) && |s.jobs| <= |s'.jobs| <= |s.jobs| + 1 && |s'.deadLetters| == |s.deadLetters|
    requires forall k :: 0 <= k < |s.jobs| ==>
      (s'.jobs[k].status == DeadLetter <==> s.jobs[k].status == DeadLetter) &&
      (s.jobs[k].status == DeadLetter ==> s'.jobs[k] == s.jobs[k])
    requires |s'.jobs| > |s.jobs| ==> s'.jobs[|s.jobs|].status != DeadLetter
    requires forall m :: 0 <= m < |s.deadLetters| ==> SameSubject(s.deadLetters[m], s'.deadLetters[m])
    requires s'.failureCount == s.failureCount
    ensures Matched(s')
  {
    hide Buried, Filed, Describes;
    DeadCount(s.jobs, s'.jobs);
    forall m | 0 <= m < |s'.deadLetters|
      ensures Buried(s'.jobs, s'.deadLetters[m])
    {
      BuriedAlong(s.jobs, s'.jobs, s.deadLetters[m], s'.deadLetters[m]);
    }
    forall k | 0 <= k < |s'.jobs| && s'.jobs[k].status == DeadLetter
      ensures Filed(s'.deadLetters, s'.jobs[k])
    {
      FiledAlong(s.deadLetters, s'.deadLetters, s.jobs[k]);
    }
  }

  lemma DeadCount(jobs: seq<Job>, jobs': seq<Job>)
    requires |jobs| <= |jobs'| <= |jobs| + 1
    requires forall k :: 0 <= k < |jobs| ==> (jobs'[k].status == DeadLetter <==> jobs[k].status == DeadLetter)
    requires |jobs'| > |jobs| ==> jobs'[|jobs|].status != DeadLetter
    ensures |DeadJobs(jobs')| == |DeadJobs(jobs)|
  {
    var kept := jobs'[..|jobs|];
    DeadPointwise(jobs, kept);
    if |jobs'| > |jobs| {
      assert jobs'[..|jobs'| - 1] == kept;
    } else {
      assert jobs' == kept;
    }
  }

  lemma BuriedAlong(jobs: seq<Job>, jobs': seq<Job>, r: DeadLetterRecord, r': DeadLetterRecord)
    requires |jobs| <= |jobs'| && Buried(jobs, r) && SameSubject(r, r')
    requires forall k :: 0 <= k < |jobs| && jobs[k].status == DeadLetter ==> jobs'[k] == jobs[k]
    ensures Buried(jobs', r')
  {
    var k :| 0 <= k < |jobs| && Describes(r, jobs[k]);
    assert Describes(r', jobs'[k]);
  }

  lemma FiledAlong(records: seq<DeadLetterRecord>, records': seq<DeadLetterRecord>, j: Job)
    requires |records'| == |records| && Filed(records, j)
    requires forall m :: 0 <= m < |records| ==> SameSubject(records[m], records'[m])
    ensures Filed(records', j)
  {
    var m :| 0 <= m < |records| && Describes(records[m], j);
    assert Describes(records'[m], j);
  }

  /** Attempts spent by the event on immediate burial. */
  function SkippedNow(s: QueueState, e: Event): nat {
    match e.op
    case FailNonRetryableOp(id, _, _) => if Failable(s, id) then SkippedBy(s.jobs[IndexOf(s.jobs, id)]) else 0
    case _ => 0
  }

  lemma LedgerFailStep(s: QueueState, e: Event, id: string, skipped: nat)
    requires AllSound(s) && UniqueIds(s.jobs) && Matched(s) && Balanced(s, skipped)
    requires FailureAccepted(s, e, id)
    ensures Matched(Apply(s, e)) && Balanced(Apply(s, e), skipped + SkippedNow(s, e))
  {
    hide Wrap64, Pow2, SumAttempts, Matched;
    var s' := Apply(s, e);
    var i := IndexOf(s.jobs, id);
    SumUpdate(s.jobs, i, s'.jobs[i]);
    if s'.jobs[i].status == DeadLetter {
      BuryStep(s, s', i, s'.jobs[i], s'.deadLetters[|s.deadLetters|]);
    } else {
      CalmStep(s, s');
    }
  }

  predicate KillsNobody(s: QueueState, e: Event) {
    match e.op
    case FailOp(id, _, _, _) => !Failable(s, id)
    case FailNonRetryableOp(id, _, _) => !Failable(s, id)
    case RecordDeadLetterOp(_, _, _) => false
    case RestoreOp(_, _) => false
    case _ => true
  }

  lemma QuietRecords(s: QueueState, e: Event)
    requires KillsNobody(s, e)
    ensures var s' := Apply(s, e);
            && s'.retryCount == s.retryCount && s'.failureCount == s.failureCount
            && |s'.deadLetters| == |s.deadLetters|
            && forall m :: 0 <= m < |s.deadLetters| ==> SameSubject(s.deadLetters[m], s'.deadLetters[m])
  {
    hide ReplayDeadLetter, GrantChosen, Granted, ReapAll, CancelAll, CanceledJobs, LeaseQuota, BusyJobs, Grant, TrimGo, FailOnce, FailForGood, RecordFor;
    if e.op.ReplayOp? {
      ReplayRecords(s, e.op.recordID, e.op.correlationID, e.now, e.op.payload, e.now, e.op.newID);
    }
  }

  lemma ReplayRecords(s: QueueState, recordID: string, correlationID: string, now: int,
                      payload: Option<string>, clock: int, newID: string)
    ensures var s' := ReplayDeadLetter(s, recordID, correlationID, now, payload, clock, newID).0;
            && s'.retryCount == s.retryCount && s'.failureCount == s.failureCount
            && |s'.deadLetters| == |s.deadLetters|
            && forall m :: 0 <= m < |s.deadLetters| ==> SameSubject(s.deadLetters[m], s'.deadLetters[m])
  {
    hide ReplayedJob, SameWork;
  }

  /** An event that kills nobody reports no failure of an unfinished job. */
  lemma NobodyTouched(s: QueueState, e: Event, j: Job)
    requires KillsNobody(s, e) && j in s.jobs && UniqueIds(s.jobs)
    ensures e.op.FailOp? || e.op.FailNonRetryableOp? ==> !Touched(j, e.op.id)
  {
    var k :| 0 <= k < |s.jobs| && s.jobs[k] == j;
    assert IndexOf(s.jobs, j.id) == k;
  }

  lemma QuietJob(s: QueueState, e: Event, j: Job, j': Job)
    requires KillsNobody(s, e) && JobStep(j, j', e) && Sound(j) && j in s.jobs && UniqueIds(s.jobs)
    ensures j'.attempts == j.attempts && (j'.status == DeadLetter <==> j.status == DeadLetter)
    ensures j.status == DeadLetter ==> j' == j
  {
    hide FailOnce, FailForGood, UniqueIds, Failable, IndexOf;
    NobodyTouched(s, e, j);
  }

  lemma LedgerQuietStep(s: QueueState, e: Event, skipped: nat)
    requires AllSound(s) && UniqueIds(s.jobs) && Matched(s) && Balanced(s, skipped) && KillsNobody(s, e)
    requires e.op.EnqueueOp? || e.op.EnqueueUniqueOp? ==> Brandnew(e.op.job)
    ensures Matched(Apply(s, e)) && Balanced(Apply(s, e), skipped)
  {
    hide Matched, JobStep, Apply;
    var s' := Apply(s, e);
    var n := |s.jobs|;
    Steps(s, e);
    QuietRecords(s, e);
    forall k | 0 <= k < n
      ensures s'.jobs[k].attempts == s.jobs[k].attempts
      ensures s'.jobs[k].status == DeadLetter <==> s.jobs[k].status == DeadLetter
      ensures s.jobs[k].status == DeadLetter ==> s'.jobs[k] == s.jobs[k]
    {
      QuietJob(s, e, s.jobs[k], s'.jobs[k]);
    }
    SumPointwise(s.jobs, s'.jobs[..n]);
    if |s'.jobs| > n {
      assert s'.jobs[..|s'.jobs| - 1] == s'.jobs[..n];
    } else {
      assert s'.jobs == s'.jobs[..n];
    }
    CalmStep(s, s');
  }

  predicate NoOutsideRecords(events: seq<Event>) {
    forall i :: 0 <= i < |events| ==> !events[i].op.RecordDeadLetterOp?
  }

  /** Conservation: as long as records come from failures only, dead jobs and dead-letter
      records stay in one-to-one correspondence, and attempts = retries + failures +
      attempts skipped by immediate burial. */
  lemma {:induction false} Conservation(states: seq<QueueState>, events: seq<Event>, n: nat)
    requires Run(states, events) && |states| == |events| + 1 && n < |states| && NoOutsideRecords(events)
    ensures forall m :: 0 <= m <= n ==> Matched(states[m]) && Balanced(states[m], Skipped(states, events, m))
  {
    hide Run, Matched, Balanced;
    if n == 0 {
      StartsEmpty(states, events);
      EmptyBooks();
    } else {
      Conservation(states, events, n - 1);
      if events[n - 1].op.RestoreOp? {
        RestoreGoesBack(states, events, n - 1);
      } else {
        ConservationStep(states, events, n - 1);
      }
    }
  }

  lemma ConservationStep(states: seq<QueueState>, events: seq<Event>, i: nat)
    requires Run(states, events) && i < |events| && NoOutsideRecords(events) && !events[i].op.RestoreOp?
    requires Matched(states[i]) && Balanced(states[i], Skipped(states, events, i))
    ensures Matched(states[i + 1]) && Balanced(states[i + 1], Skipped(states, events, i + 1))
  {
    hide Apply, Lawful, Matched, Balanced, SkippedNow;
    JobsStaySound(states, events, i);
    IdsStayUnique(states, events, i);
    EventApplies(states, events, i);
    LedgerStep(states[i], events[i], Skipped(states, events, i));
  }

  lemma StartsEmpty(states: seq<QueueState>, events: seq<Event>)
    requires Run(states, events)
    ensures states[0] == EMPTY
  {
  }

  lemma EmptyBooks()
    ensures Matched(EMPTY) && Balanced(EMPTY, 0)
  {
  }

  lemma LedgerStep(s: QueueState, e: Event, skipped: nat)
    requires AllSound(s) && UniqueIds(s.jobs) && Matched(s) && Balanced(s, skipped)
    requires !e.op.RestoreOp? && !e.op.RecordDeadLetterOp?
    requires e.op.EnqueueOp? || e.op.EnqueueUniqueOp? ==> Brandnew(e.op.job)
    ensures Matched(Apply(s, e)) && Balanced(Apply(s, e), skipped + SkippedNow(s, e))
  {
    hide Apply, Matched, Balanced, SkippedBy;
    if e.op.FailOp? && Failable(s, e.op.id) {
      LedgerFailStep(s, e, e.op.id, skipped);
    } else if e.op.FailNonRetryableOp? && Failable(s, e.op.id) {
      LedgerFailStep(s, e, e.op.id, skipped);
    } else {
      LedgerQuietStep(s, e, skipped);
    }
  }
}
