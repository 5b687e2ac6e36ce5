/** Leasing: exactly who is handed out, the concurrency ceiling, and the exclusivity of a
    lease. */
module QueueLeases {
  import opened Common
  import opened Jobs
  import opened QueueSpec
  import opened QueueEvents
  import opened QueueInvariants

  // ----- Who is handed out -----

  /** The entries of `after` at the places where it differs from `before`. */
  function Changed(before: seq<Job>, after: seq<Job>): seq<Job>
    requires |before| == |after|
  {
    if before == [] then []
    else
      var n := |before| - 1;
      Changed(before[..n], after[..n]) + (if before[n] != after[n] then [after[n]] else [])
  }

  function Min(a: nat, b: nat): nat { if a < b then a else b }

  /** Ready jobs are counted along the queue. */
  lemma {:induction false} ReadyPrefix(jobs: seq<Job>, i: nat, k: nat, now: int)
    requires i <= k <= |jobs|
    ensures |ReadyJobs(jobs[..i], now)| <= |ReadyJobs(jobs[..k], now)|
    decreases k
  {
    if i < k {
      ReadyPrefix(jobs, i, k - 1, now);
      assert jobs[..k][..k - 1] == jobs[..k - 1];
    }
  }

  /** The leasing scan, seen from its last place. */
  lemma LastPlace(jobs: seq<Job>, now: int, ttl: int, n: nat)
    requires jobs != []
    ensures var k := |jobs| - 1;
            var init, after := jobs[..k], GrantChosen(jobs, now, ttl, n);
            && after[..k] == GrantChosen(init, now, ttl, n)
            && if Chosen(jobs, k, now, n)
               then Granted(jobs, now, ttl, n) == Granted(init, now, ttl, n) + [after[k]]
                    && after[k] != jobs[k] && Busy(after[k].status) && !Busy(jobs[k].status)
               else Granted(jobs, now, ttl, n) == Granted(init, now, ttl, n) && after[k] == jobs[k]
  {
    hide Granted, ReadyJobs;
    var k := |jobs| - 1;
    var init := jobs[..k];
    assert forall i :: 0 <= i < k ==> init[..i] == jobs[..i];
    assert GrantChosen(jobs, now, ttl, n)[..k] == GrantChosen(init, now, ttl, n);
    GrantedStep(jobs, k, now, ttl, n);
    assert jobs[..k + 1] == jobs;
  }

  lemma NothingToScan(now: int, ttl: int, n: nat)
    ensures Granted([], now, ttl, n) == [] && GrantChosen([], now, ttl, n) == []
  {
  }

  lemma {:induction false} GrantsAreChanges(jobs: seq<Job>, now: int, ttl: int, n: nat)
    ensures Granted(jobs, now, ttl, n) == Changed(jobs, GrantChosen(jobs, now, ttl, n))
    ensures |BusyJobs(GrantChosen(jobs, now, ttl, n))| == |BusyJobs(jobs)| + |Granted(jobs, now, ttl, n)|
  {
    hide Granted, GrantChosen, Chosen, Busy, BusyJobs;
    if jobs == [] {
      NothingToScan(now, ttl, n);
    } else {
      GrantsAreChanges(jobs[..|jobs| - 1], now, ttl, n);
      LastPlace(jobs, now, ttl, n);
      BusyLast(jobs);
      BusyLast(GrantChosen(jobs, now, ttl, n));
    }
  }

  lemma BusyLast(jobs: seq<Job>)
    requires jobs != []
    ensures |BusyJobs(jobs)| == |BusyJobs(jobs[..|jobs| - 1])| + if Busy(jobs[|jobs| - 1].status) then 1 else 0
  {
  }

  /** No ready job is passed over for a later one. */
  lemma EarlierFirst(jobs: seq<Job>, i: nat, k: nat, now: int, n: nat)
    requires i < k < |jobs| && Ready(jobs[i], now) && Chosen(jobs, k, now, n)
    ensures Chosen(jobs, i, now, n)
  {
    ReadyPrefix(jobs, i, k, now);
  }

  /** An unfilled quota leaves nothing ready behind. */
  lemma WorkConserving(jobs: seq<Job>, now: int, ttl: int, n: nat, k: nat)
    requires |Granted(jobs, now, ttl, n)| < n && k < |jobs|
    ensures !Ready(GrantChosen(jobs, now, ttl, n)[k], now)
  {
    ReadyPrefix(jobs, k, |jobs|, now);
    assert jobs[..|jobs|] == jobs;
  }

  /** `LeaseReady` hands out exactly the jobs it changes, in queue order; it never passes
      over a ready job for a later one, keeps to its quota, and hands out less than the
      quota only when no ready job is left. */
  lemma LeaseReadyExact(s: QueueState, now: int, limit: int, maxConcurrency: int, ttl: int)
    ensures var (s', leased) := LeaseReady(s, now, limit, maxConcurrency, ttl);
            var jobs := ReapAll(s.jobs, now);
            var n := LeaseQuota(jobs, limit, maxConcurrency);
            && |s'.jobs| == |s.jobs| && s' == s.(jobs := s'.jobs)
            && leased == Changed(jobs, s'.jobs)
            && |leased| == Min(n, |ReadyJobs(jobs, now)|)
            && (forall k :: 0 <= k < |jobs| ==> s'.jobs[k] == jobs[k] || (Ready(jobs[k], now) && s'.jobs[k] == Grant(jobs[k], now, ttl)))
            && (forall i, k :: 0 <= i < k < |jobs| && Ready(jobs[i], now) && s'.jobs[k] != jobs[k] ==> s'.jobs[i] == Grant(jobs[i], now, ttl))
            && (|leased| < n ==> forall k :: 0 <= k < |jobs| ==> !Ready(s'.jobs[k], now))
            && |BusyJobs(s'.jobs)| == |BusyJobs(jobs)| + |leased|
  {
    hide Select, Map, Reap, Busy;
    var jobs := ReapAll(s.jobs, now);
    var n := LeaseQuota(jobs, limit, maxConcurrency);
    var after := GrantChosen(jobs, now, ttl, n);
    GrantsAreChanges(jobs, now, ttl, n);
    forall i, k | 0 <= i < k < |jobs| && Ready(jobs[i], now) && after[k] != jobs[k]
      ensures after[i] == Grant(jobs[i], now, ttl)
    {
      EarlierFirst(jobs, i, k, now, n);
    }
    if |Granted(jobs, now, ttl, n)| < n {
      forall k | 0 <= k < |jobs|
        ensures !Ready(after[k], now)
      {
        WorkConserving(jobs, now, ttl, n, k);
      }
    }
  }

  // ----- The concurrency ceiling -----

  lemma {:induction false} BusyPointwise(before: seq<Job>, after: seq<Job>)
    requires |before| == |after|
    requires forall k :: 0 <= k < |before| && Busy(after[k].status) ==> Busy(before[k].status)
    ensures |BusyJobs(after)| <= |BusyJobs(before)|
  {
    if before != [] {
      BusyPointwise(before[..|before| - 1], after[..|after| - 1]);
    }
  }

  lemma {:induction false} BusyUpdate(jobs: seq<Job>, i: nat, job: Job)
    requires i < |jobs|
    ensures |BusyJobs(jobs[i := job])| <= |BusyJobs(jobs)| + 1
  {
    var n := |jobs| - 1;
    if i < n {
      BusyUpdate(jobs[..n], i, job);
      assert jobs[i := job][..n] == jobs[..n][i := job];
    } else {
      assert jobs[i := job][..n] == jobs[..n];
    }
  }

  lemma ReapedBusy(jobs: seq<Job>, now: int)
    ensures |BusyJobs(ReapAll(jobs, now))| <= |BusyJobs(jobs)|
  {
    BusyPointwise(jobs, ReapAll(jobs, now));
  }

  predicate LeasesUnder(events: seq<Event>, limit: int) {
    forall i :: 0 <= i < |events| ==>
      match events[i].op
      case LeaseReadyOp(_, maxConcurrency, _) => maxConcurrency == limit
      case LeaseJobOp(_, maxConcurrency, _) => maxConcurrency == limit
      case _ => true
  }

  lemma CeilingStep(s: QueueState, e: Event, limit: int)
    requires AllSound(s) && limit > 0 && |BusyJobs(s.jobs)| <= limit && LeasesUnder([e], limit)
    requires !e.op.RestoreOp?
    requires e.op.EnqueueOp? || e.op.EnqueueUniqueOp? ==> Brandnew(e.op.job)
    ensures |BusyJobs(Apply(s, e).jobs)| <= limit
  {
    hide BusyJobs, GrantChosen, Granted;
    assert [e][0] == e;
    match e.op {
      case LeaseReadyOp(n, _, ttl) =>
        ReapedBusy(s.jobs, e.now);
        LeaseReadyExact(s, e.now, n, limit, ttl);
      case LeaseJobOp(id, _, ttl) =>
        ReapedBusy(s.jobs, e.now);
        var jobs := ReapAll(s.jobs, e.now);
        var i := IndexOf(jobs, id);
        if i >= 0 {
          BusyUpdate(jobs, i, Grant(jobs[i], e.now, ttl));
        }
      case _ =>
        CeilingOtherStep(s, e);
    }
  }

  lemma CeilingOtherStep(s: QueueState, e: Event)
    requires AllSound(s) && !e.op.RestoreOp? && !e.op.LeaseReadyOp? && !e.op.LeaseJobOp?
    requires e.op.EnqueueOp? || e.op.EnqueueUniqueOp? ==> Brandnew(e.op.job)
    ensures |BusyJobs(Apply(s, e).jobs)| <= |BusyJobs(s.jobs)|
  {
    hide Apply, BusyJobs, RetryDelay;
    var s' := Apply(s, e);
    Steps(s, e);
    var n := |s.jobs|;
    var kept := s'.jobs[..n];
    forall k | 0 <= k < n && Busy(kept[k].status)
      ensures Busy(s.jobs[k].status)
    {
      assert JobStep(s.jobs[k], s'.jobs[k], e);
    }
    BusyPointwise(s.jobs, kept);
    if |s'.jobs| > n {
      assert s'.jobs[..|s'.jobs| - 1] == kept && !Busy(s'.jobs[n].status);
      BusyLast(s'.jobs);
    } else {
      assert s'.jobs == kept;
    }
  }

  /** When every lease is taken under the same limit, no reachable state has more leased and
      running jobs than that. */
  lemma {:induction false} WorkerCeiling(states: seq<QueueState>, events: seq<Event>, limit: int, n: nat)
    requires Run(states, events) && n < |states| && limit > 0 && LeasesUnder(events, limit)
    ensures forall m :: 0 <= m <= n ==> |BusyJobs(states[m].jobs)| <= limit
  {
    hide Apply, Lawful, BusyJobs, LeasesUnder, Sound;
    if n == 0 {
      EmptyIsIdle(states, events);
    } else {
      WorkerCeiling(states, events, limit, n - 1);
      if events[n - 1].op.RestoreOp? {
        RestoreGoesBack(states, events, n - 1);
      } else {
        JobsStaySound(states, events, n - 1);
        EventApplies(states, events, n - 1);
        OneLeaseUnder(events, limit, n - 1);
        CeilingStep(states[n - 1], events[n - 1], limit);
      }
    }
  }

  lemma EmptyIsIdle(states: seq<QueueState>, events: seq<Event>)
    requires Run(states, events)
    ensures BusyJobs(states[0].jobs) == []
  {
  }

  lemma OneLeaseUnder(events: seq<Event>, limit: int, i: nat)
    requires LeasesUnder(events, limit) && i < |events|
    ensures LeasesUnder([events[i]], limit)
  {
  }

  // ----- Lease exclusivity -----

  /** The jobs an event hands to workers. */
  function HandedOut(s: QueueState, e: Event): seq<Job> {
    match e.op
    case LeaseReadyOp(limit, maxConcurrency, ttl) => LeaseReady(s, e.now, limit, maxConcurrency, ttl).1
    case LeaseJobOp(id, maxConcurrency, ttl) =>
      var r := LeaseJob(s, id, e.now, maxConcurrency, ttl).1;
      if r.Ok? then [r.value] else []
    case _ => []
  }

  predicate Hands(s: QueueState, e: Event, id: string) {
    exists job :: job in HandedOut(s, e) && job.id == id
  }

  function LeaseTTL(e: Event): int {
    if e.op.LeaseReadyOp? || e.op.LeaseJobOp? then e.op.ttl else 0
  }

  /** A job handed out was pending and due, after reaping, and is leased from now on. */
  lemma HandedOutWasReady(s: QueueState, e: Event, id: string)
    requires UniqueIds(s.jobs) && Hands(s, e, id)
    ensures e.op.LeaseReadyOp? || e.op.LeaseJobOp?
    ensures var k := IndexOf(s.jobs, id);
            && 0 <= k < |Apply(s, e).jobs|
            && Ready(Reap(s.jobs[k], e.now), e.now)
            && Apply(s, e).jobs[k] == Grant(Reap(s.jobs[k], e.now), e.now, LeaseTTL(e))
  {
    hide LeaseReady, LeaseJob, Ready, Reap, Grant, UniqueIds;
    var job :| job in HandedOut(s, e) && job.id == id;
    if e.op.LeaseReadyOp? {
      ReadyGrant(s, e.now, e.op.limit, e.op.maxConcurrency, e.op.ttl, job);
    } else {
      JobGrant(s, e.op.id, e.now, e.op.maxConcurrency, e.op.ttl);
    }
  }

  lemma ReadyGrant(s: QueueState, now: int, limit: int, maxConcurrency: int, ttl: int, job: Job)
    requires UniqueIds(s.jobs) && job in LeaseReady(s, now, limit, maxConcurrency, ttl).1
    ensures var s' := LeaseReady(s, now, limit, maxConcurrency, ttl).0;
            var k := IndexOf(s.jobs, job.id);
            0 <= k < |s'.jobs| && Ready(Reap(s.jobs[k], now), now) && s'.jobs[k] == Grant(Reap(s.jobs[k], now), now, ttl)
  {
    hide LeaseReady, LeaseQuota, ReadyJobs, BusyJobs, Ready;
    var s' := LeaseReady(s, now, limit, maxConcurrency, ttl).0;
    var jobs := ReapAll(s.jobs, now);
    LeaseReadyExact(s, now, limit, maxConcurrency, ttl);
    var k := ChangedAt(jobs, s'.jobs, job);
    assert jobs[k] == Reap(s.jobs[k], now);
    assert s.jobs[k].id == job.id;
  }

  lemma JobGrant(s: QueueState, id: string, now: int, maxConcurrency: int, ttl: int)
    requires LeaseJob(s, id, now, maxConcurrency, ttl).1.Ok?
    ensures var (s', r) := LeaseJob(s, id, now, maxConcurrency, ttl);
            var k := IndexOf(s.jobs, id);
            && 0 <= k < |s'.jobs| && Ready(Reap(s.jobs[k], now), now)
            && s'.jobs[k] == Grant(Reap(s.jobs[k], now), now, ttl) && r.value.id == id
  {
    hide BusyJobs, Ready;
    var jobs := ReapAll(s.jobs, now);
    ReapedIndex(s.jobs, id, now);
    var k := IndexOf(jobs, id);
    assert jobs[k] == Reap(s.jobs[k], now);
  }

  lemma ReapedIndex(jobs: seq<Job>, id: string, now: int)
    ensures IndexOf(ReapAll(jobs, now), id) == IndexOf(jobs, id)
  {
    var reaped := ReapAll(jobs, now);
    var i, k := IndexOf(reaped, id), IndexOf(jobs, id);
    assert forall m :: 0 <= m < |jobs| ==> reaped[m].id == jobs[m].id;
    if i >= 0 {
      assert jobs[i].id == id;
    }
    if k >= 0 {
      assert reaped[k].id == id;
    }
  }

  lemma {:induction false} ChangedAt(before: seq<Job>, after: seq<Job>, job: Job) returns (k: nat)
    requires |before| == |after| && job in Changed(before, after)
    ensures k < |before| && before[k] != after[k] && after[k] == job
  {
    var n := |before| - 1;
    if before[n] != after[n] && after[n] == job {
      k := n;
    } else {
      k := ChangedAt(before[..n], after[..n], job);
    }
  }

  /** Someone gave the job back early: a failure report or a resume that the queue accepts. */
  predicate Released(s: QueueState, e: Event, id: string) {
    FailureAccepted(s, e, id) || (e.op == ResumeOp(id) && Resumable(s, id))
  }

  /** No event on the way from state `a` to state `n` released the job. */
  predicate NeverReleased(states: seq<QueueState>, events: seq<Event>, a: nat, n: nat, id: string)
    requires |states| == |events| + 1 && n <= |events|
  {
    Throughout(states, events, a, n, (s, e) => !Released(s, e, id))
  }

  /** A lease taken without a time to live has no deadline. */
  function Deadline(e: Event): Option<int> {
    if LeaseTTL(e) > 0 then Some(e.now + LeaseTTL(e)) else None
  }

  /** Until the deadline, or for ever if there is none, the job is leased under it, paused or
      finished. */
  predicate Held(j: Job, deadline: Option<int>, now: int) {
    || (deadline.Some? && now >= deadline.value)
    || Terminal(j.status) || j.status == Paused || (j.status == Leased && j.lease == deadline)
  }

  lemma HeldStep(s: QueueState, s': QueueState, e: Event, k: nat, deadline: Option<int>, now: int)
    requires k < |s.jobs| && k < |s'.jobs| && JobStep(s.jobs[k], s'.jobs[k], e) && !e.op.RestoreOp?
    requires UniqueIds(s.jobs) && now <= e.now && Held(s.jobs[k], deadline, now)
    requires !Released(s, e, s.jobs[k].id)
    ensures Held(s'.jobs[k], deadline, e.now)
    ensures s'.jobs[k].id == s.jobs[k].id
  {
    hide RetryDelay;
    assert IndexOf(s.jobs, s.jobs[k].id) == k;
  }

  lemma HeldLater(j: Job, deadline: Option<int>, before: int, now: int)
    requires Held(j, deadline, before) && before <= now
    ensures Held(j, deadline, now)
  {
  }

  lemma GrantedIsHeld(j: Job, e: Event)
    requires Sound(j) && Ready(Reap(j, e.now), e.now)
    ensures Held(Grant(Reap(j, e.now), e.now, LeaseTTL(e)), Deadline(e), e.now)
  {
  }

  lemma HeldAtOnce(states: seq<QueueState>, events: seq<Event>, a: nat, id: string)
    requires Run(states, events) && a < |events| && Hands(states[a], events[a], id)
    ensures var k := IndexOf(states[a + 1].jobs, id);
            k >= 0 && Held(states[a + 1].jobs[k], Deadline(events[a]), events[a].now)
  {
    hide Apply, JobStep, Lawful, Sound, Hands, HandedOut, Held, Deadline, Ready, Reap, LeaseTTL;
    JobsStaySound(states, events, a);
    IdsStayUnique(states, events, a + 1);
    EventApplies(states, events, a);
    HandedOutWasReady(states[a], events[a], id);
    var k := IndexOf(states[a].jobs, id);
    GrantedIsHeld(states[a].jobs[k], events[a]);
    GrantKeepsId(states[a].jobs[k], events[a]);
    assert states[a + 1].jobs[k].id == id;
  }

  lemma GrantKeepsId(j: Job, e: Event)
    ensures Grant(Reap(j, e.now), e.now, LeaseTTL(e)).id == j.id
  {
  }

  /** A leased job stays leased under its deadline, or is paused or finished, until the
      deadline, unless a failure or a resume releases it or a restore goes back behind the
      lease. Without a deadline that never ends. */
  lemma {:induction false} HeldUntil(states: seq<QueueState>, events: seq<Event>, a: nat, m: nat, id: string)
    requires Run(states, events) && a < m <= |events| && NeverReleased(states, events, a + 1, m, id)
    requires Hands(states[a], events[a], id)
    ensures var k := IndexOf(states[m].jobs, id);
            k >= 0 && Held(states[m].jobs[k], Deadline(events[a]), events[m - 1].now)
    decreases m
  {
    hide Apply, JobStep, Lawful, Sound, Hands, HandedOut, Released, Held, Deadline;
    var deadline := Deadline(events[a]);
    if m == a + 1 {
      HeldAtOnce(states, events, a, id);
    } else if events[m - 1].op.RestoreOp? {
      RestoreGoesBack(states, events, m - 1);
      var x := events[m - 1].op.exportedAt;
      HeldUntil(states, events, a, x, id);
      HeldLater(states[x].jobs[IndexOf(states[x].jobs, id)], deadline, events[x - 1].now, events[m - 1].now);
    } else {
      HeldUntil(states, events, a, m - 1, id);
      IdsStayUnique(states, events, m);
      JobsStaySound(states, events, m - 1);
      AllSoundStep(states, events, m - 1);
      var k := IndexOf(states[m - 1].jobs, id);
      HeldStep(states[m - 1], states[m], events[m - 1], k, deadline, events[m - 2].now);
    }
  }

  lemma HeldNotReady(j: Job, deadline: Option<int>, before: int, now: int)
    requires Held(j, deadline, before) && before <= now && Ready(Reap(j, now), now)
    ensures deadline.Some? && now >= deadline.value
  {
  }

  /** A leased job is not handed out a second time before its lease runs out, and never when
      the lease was taken without a time to live, unless on the way a failure of it was
      accepted or it was resumed. The way is the one that led to the state it is handed out
      from: what a restore undid, releases included, does not count. */
  lemma LeaseExclusive(states: seq<QueueState>, events: seq<Event>, a: nat, b: nat, id: string)
    requires Run(states, events) && a < b < |events| && NeverReleased(states, events, a + 1, b, id)
    requires Hands(states[a], events[a], id) && Hands(states[b], events[b], id)
    ensures LeaseTTL(events[a]) > 0 && events[b].now >= events[a].now + LeaseTTL(events[a])
  {
    hide Apply, Lawful, Hands, Released, Held, Ready, Reap, Grant;
    IdsStayUnique(states, events, b);
    HeldUntil(states, events, a, b, id);
    HandedOutWasReady(states[b], events[b], id);
    HeldNotReady(states[b].jobs[IndexOf(states[b].jobs, id)], Deadline(events[a]), events[b - 1].now, events[b].now);
  }

  /** A restore that does go back behind the lease takes it back: whatever job is due can be
      enqueued, exported, leased, restored and leased again at one and the same time. */
  lemma OlderRestoreFreesLease(job: Job, now: int, ttl: int) returns (states: seq<QueueState>, events: seq<Event>)
    requires Brandnew(job) && job.id != "" && job.notBefore <= now && ttl > 0
    ensures |events| == 5 && Run(states, events) && (forall i :: 0 <= i < 5 ==> events[i].now == now)
    ensures events[3].op.RestoreOp? && events[3].op.exportedAt == 2 && LeaseTTL(events[2]) == ttl
    ensures Hands(states[2], events[2], job.id) && Hands(states[4], events[4], job.id)
  {
    hide Apply, Hands;
    var s1 := EMPTY.(jobs := [job]);
    var lease := Event(now, LeaseJobOp(job.id, 0, ttl));
    events := [Event(now, EnqueueUniqueOp(job)), Event(now, ExportOp), lease, Event(now, RestoreOp(s1, 2)), lease];
    var s3 := Apply(s1, lease);
    states := [EMPTY, s1, s1, s3, s1, s3];
    assert IndexOf([], job.id) < 0;
    OneJobQueue(job, now);
    HandsOutOnly(job, now, ttl);
  }

  lemma OneJobQueue(job: Job, now: int)
    requires Brandnew(job) && job.id != ""
    ensures var s1 := EMPTY.(jobs := [job]);
            && Apply(EMPTY, Event(now, EnqueueUniqueOp(job))) == s1 && Apply(s1, Event(now, ExportOp)) == s1
            && forall s :: Apply(s, Event(now, RestoreOp(s1, 2))) == s1
  {
    var s1 := EMPTY.(jobs := [job]);
    assert Observe(s1, now).jobs == [job];
  }

  lemma HandsOutOnly(job: Job, now: int, ttl: int)
    requires Brandnew(job) && job.notBefore <= now
    ensures Hands(EMPTY.(jobs := [job]), Event(now, LeaseJobOp(job.id, 0, ttl)), job.id)
  {
    hide Apply;
    var s1 := EMPTY.(jobs := [job]);
    assert ReapAll(s1.jobs, now) == [job];
    assert IndexOf([job], job.id) == 0;
    var r := LeaseJob(s1, job.id, now, 0, ttl).1;
    assert r == Ok(Grant(job, now, ttl));
    assert HandedOut(s1, Event(now, LeaseJobOp(job.id, 0, ttl)))[0].id == job.id;
  }
}
