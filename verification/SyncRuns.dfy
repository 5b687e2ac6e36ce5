/** How a sync run reported by the API is shown: stale and contradictory statuses are
    corrected by the clock, the finish time and the metrics. */
module SyncRuns {
  import opened Common
  import opened Text

  // ----- Status vocabulary -----

  const COMPLETED_STATUSES: set<string> := {"completed", "succeeded", "success", "done"}
  const PARTIAL_STATUSES: set<string> := {"partial"}
  const FAILED_STATUSES: set<string> := {"failed", "cancelled", "canceled", "timed_out", "timeout"}
  const ACTIVE_STATUSES: set<string> := {"running", "syncing", "in_progress"}
  const QUEUED_STATUSES: set<string> := {"queued", "pending"}

  datatype Class = Completed | Partial | Failed | Queued | Running | Other

  function Token(status: string): string { LowerJs(TrimJs(status)) }

  function ClassOf(token: string): Class {
    if token in PARTIAL_STATUSES then Partial
    else if token in COMPLETED_STATUSES then Completed
    else if token in FAILED_STATUSES then Failed
    else if token in QUEUED_STATUSES then Queued
    else if token in ACTIVE_STATUSES then Running
    else Other
  }

  function Canonical(status: string): Class { ClassOf(Token(status)) }

  predicate IsPlain(c: char) { 'a' <= c <= 'z' || c == '_' }

  /** A token of plain characters is its own token. */
  lemma {:induction false} PlainToken(s: string)
    requires forall i :: 0 <= i < |s| ==> IsPlain(s[i])
    ensures Token(s) == s
  {
    assert Trimmed(s, IsJsSpace);
    PlainLower(s);
  }

  lemma {:induction false} PlainLower(s: string)
    requires forall i :: 0 <= i < |s| ==> IsPlain(s[i])
    ensures LowerJs(s) == s
  {
    if s != "" {
      var n := |s| - 1;
      assert IsPlain(s[n]);
      PlainLower(s[..n]);
      assert s == s[..n] + [s[n]];
    }
  }

  /** White space around a plain status does not matter. */
  lemma PaddedToken(left: string, s: string, right: string)
    requires s != "" && (forall i :: 0 <= i < |s| ==> IsPlain(s[i])) && All(left, IsJsSpace) && All(right, IsJsSpace)
    ensures Token(left + s + right) == s
  {
    hide Trim;
    assert IsPlain(s[0]) && IsPlain(s[|s| - 1]);
    TrimAround(left, s, right, IsJsSpace);
    PlainLower(s);
  }

  // ----- Metrics -----

  datatype Metric = Finite(value: real) | NonFinite

  type Metrics = map<string, Metric>

  /** A metric rounded down, and nought when it is absent, negative or not a number. */
  function Count(m: Metrics, key: string): (n: nat)
  {
    if key in m && m[key].Finite? && m[key].value >= 0.0 then m[key].value.Floor else 0
  }

  /** It is the largest whole number that the metric reaches. */
  lemma CountMeans(m: Metrics, key: string)
    ensures key in m && m[key].Finite? && m[key].value >= 0.0 ==>
              Count(m, key) as real <= m[key].value < (Count(m, key) + 1) as real
    ensures !(key in m && m[key].Finite? && m[key].value >= 0.0) ==> Count(m, key) == 0
  {
  }

  method MetricCount(m: Metrics, keys: seq<string>) returns (count: nat)
    ensures forall k :: k in keys ==> Count(m, k) <= count
    ensures count == 0 || exists k :: k in keys && Count(m, k) == count
  {
    count := 0;
    for i := 0 to |keys|
      invariant forall j :: 0 <= j < i ==> Count(m, keys[j]) <= count
      invariant count == 0 || exists j :: 0 <= j < i && Count(m, keys[j]) == count
    {
      if keys[i] !in m || m[keys[i]].NonFinite? {
        assert Count(m, keys[i]) == 0;
        continue;
      }
      var rounded := if m[keys[i]].value.Floor > 0 then m[keys[i]].value.Floor else 0;
      assert rounded == Count(m, keys[i]);
      if rounded > count {
        count := rounded;
      }
    }
  }

  method MetricValue(m: Metrics, key: string) returns (n: nat)
    ensures n == Count(m, key)
  {
    if key !in m || m[key].NonFinite? {
      return 0;
    }
    n := if m[key].value.Floor > 0 then m[key].value.Floor else 0;
  }

  const PARTIAL_KEYS: seq<string> := [
    "authored_pull_request_search_incomplete",
    "authored_pull_request_search_overflow",
    "authored_pull_request_backfill_incomplete",
    "authored_pull_request_discovery_empty",
    "authored_pull_request_zero_discovery_with_history",
    "authored_pull_requests_retryable",
    "authored_pull_requests_skipped",
    "authored_pull_requests_failed",
    "authored_pull_requests_timeouts",
    "authored_pull_requests_selected_unmerged_only",
    "authored_pull_request_scope_limited",
    "post_sync_refresh_failed",
    "post_sync_score_replay_failed",
    "post_sync_profile_refresh_failed",
    "post_sync_profile_refresh_pending_score_evidence",
    "post_sync_pr_reports_backfill_failed",
    "post_sync_quests_backfill_failed"
  ]

  predicate AtLeastOne(m: Metrics, key: string) {
    key in m && m[key].Finite? && m[key].value >= 1.0
  }

  /** Some trouble was counted at least once, or searches found nothing to sync. */
  predicate ShowsGaps(metrics: Option<Metrics>) {
    metrics.Some? &&
    var m := metrics.value;
    || (exists k :: k in PARTIAL_KEYS && AtLeastOne(m, k))
    || (&& AtLeastOne(m, "authored_pull_request_search_queries")
        && !AtLeastOne(m, "authored_pull_requests_selected")
        && !AtLeastOne(m, "authored_pull_request_discovery_targets"))
  }

  lemma CountedAtLeastOnce(m: Metrics, key: string)
    ensures Count(m, key) > 0 <==> AtLeastOne(m, key)
  {
  }

  method HasPartialSyncRunMetrics(metrics: Option<Metrics>) returns (partial: bool)
    ensures partial <==> ShowsGaps(metrics)
  {
    if metrics.None? {
      return false;
    }
    var m := metrics.value;
    for i := 0 to |PARTIAL_KEYS|
      invariant forall j :: 0 <= j < i ==> !AtLeastOne(m, PARTIAL_KEYS[j])
    {
      var count := MetricCount(m, [PARTIAL_KEYS[i]]);
      assert PARTIAL_KEYS[i] in [PARTIAL_KEYS[i]];
      CountedAtLeastOnce(m, PARTIAL_KEYS[i]);
      if count > 0 {
        return true;
      }
    }
    var selected := MetricValue(m, "authored_pull_requests_selected");
    var discovered := MetricValue(m, "authored_pull_request_discovery_targets");
    var queries := MetricValue(m, "authored_pull_request_search_queries");
    CountedAtLeastOnce(m, "authored_pull_requests_selected");
    CountedAtLeastOnce(m, "authored_pull_request_discovery_targets");
    CountedAtLeastOnce(m, "authored_pull_request_search_queries");
    return queries > 0 && selected == 0 && discovered == 0;
  }

  // ----- Runs -----

  datatype RunRecord = RunRecord(
    id: string,
    runType: string,
    status: string,
    startedAt: Stamp,
    finishedAt: Option<Stamp>,
    lastError: Option<string>,
    metrics: Option<Metrics>)

  function Millis(stamp: Stamp): Option<int> {
    if TrimJs(stamp.text) == "" then None else stamp.millis
  }

  function Started(r: RunRecord): Option<int> { Millis(r.startedAt) }

  predicate Finished(r: RunRecord) { r.finishedAt.Some? && Millis(r.finishedAt.value).Some? }

  predicate Blank(error: Option<string>) { error.None? || TrimJs(error.value) == "" }

  function ActiveWindow(timeout: int): int { if timeout + 30_000 > 120_000 then timeout + 30_000 else 120_000 }

  function QueuedWindow(timeout: int): int {
    if ActiveWindow(timeout) * 2 > 180_000 then ActiveWindow(timeout) * 2 else 180_000
  }

  datatype Reason = NotTerminal | ActiveTooLong | NeverStarted | QueuedTooLong | Incomplete

  function Sentence(start: string, end: string): (s: string)
    requires end != "" && IsPlain(end[|end| - 1])
    ensures s != "" && IsPlain(s[|s| - 1])
  {
    start + end
  }

  function Wording(reason: Reason): (s: string)
    ensures s != "" && IsPlain(s[|s| - 1])
  {
    var end := if reason.Incomplete? then "remained incomplete" else "marked failed";
    Sentence(
      match reason
      case NotTerminal => "sync execution finished with a non-terminal status and was "
      case ActiveTooLong => "sync execution exceeded active window and was "
      case NeverStarted => "sync execution is missing started_at and was "
      case QueuedTooLong => "sync execution remained queued beyond safe window and was "
      case Incomplete => "sync execution was normalized to partial because authored PR discovery ",
      end)
  }

  lemma {:induction false} LastCharStays(s: string)
    requires s != "" && !IsJsSpace(s[|s| - 1])
    ensures var r := TrimLeft(s, IsJsSpace); r != "" && r[|r| - 1] == s[|s| - 1]
  {
    if IsJsSpace(s[0]) {
      LastCharStays(s[1..]);
    }
  }

  lemma WordingIsVisible(reason: Reason)
    ensures !Blank(Some(Wording(reason)))
  {
    hide Wording;
    LastCharStays(Wording(reason));
  }

  /** The status to show, and why it was corrected. */
  datatype Verdict = Keep | Show(status: string) | Correct(to: string, reason: Reason)

  predicate OlderThan(started: Option<int>, now: int, window: int) {
    started.Some? && now - started.value > window
  }

  /** Judged by finish time and clock alone. */
  function ByClock(r: RunRecord, now: int, timeout: int): Verdict {
    var token := Token(r.status);
    var kind := ClassOf(token);
    var late := OlderThan(Started(r), now, ActiveWindow(timeout));
    if Finished(r) then
      if token == "" || kind.Completed? then Show("completed")
      else if kind.Partial? then Show("partial")
      else if kind.Failed? then Show("failed")
      else if kind.Running? || kind.Queued? then Correct("failed", NotTerminal)
      else Keep
    else if token == "" && Started(r).None? then Show("queued")
    else if kind.Running? && Started(r).None? then Correct("failed", NeverStarted)
    else if token == "" || kind.Running? then if late then Correct("failed", ActiveTooLong) else Show("running")
    else if kind.Queued? then
      if OlderThan(Started(r), now, QueuedWindow(timeout)) then Correct("failed", QueuedTooLong) else Show("queued")
    else Keep
  }

  predicate HidesGaps(r: RunRecord, shown: string) {
    shown == "completed" && Token(r.runType) == "user" && ShowsGaps(r.metrics)
  }

  function Judge(r: RunRecord, now: int, timeout: int): Verdict {
    var v := ByClock(r, now, timeout);
    if v.Correct? then v
    else if HidesGaps(r, if v.Keep? then Token(r.status) else v.status) then Correct("partial", Incomplete)
    else v
  }

  function Normalized(r: RunRecord, now: int, timeout: int): RunRecord {
    match Judge(r, now, timeout)
    case Keep => r
    case Show(status) => if status == Token(r.status) then r else r.(status := status)
    case Correct(status, reason) =>
      r.(status := status, lastError := if Blank(r.lastError) then Some(Wording(reason)) else r.lastError)
  }

  method NormalizeSyncRunRecord(run: RunRecord, now: int, timeout: int) returns (r: RunRecord)
    ensures r == Normalized(run, now, timeout)
  {
    hide TrimJs, LowerJs, Wording, ShowsGaps;
    var finished := Finished(run);
    var started := Started(run);
    var token := Token(run.status);
    var normalized := token;
    var error := run.lastError;

    if finished {
      if normalized == "" {
        normalized := "completed";
      } else if normalized in PARTIAL_STATUSES {
        normalized := "partial";
      } else if normalized in FAILED_STATUSES {
        normalized := "failed";
      } else if normalized in ACTIVE_STATUSES || normalized in QUEUED_STATUSES {
        normalized := "failed";
        if Blank(error) {
          error := Some(Wording(NotTerminal));
        }
      } else if normalized in COMPLETED_STATUSES {
        normalized := "completed";
      }
    } else if normalized == "" {
      if started.None? {
        normalized := "queued";
      } else if now - started.value > ActiveWindow(timeout) {
        normalized := "failed";
        if Blank(error) {
          error := Some(Wording(ActiveTooLong));
        }
      } else {
        normalized := "running";
      }
    } else if normalized in ACTIVE_STATUSES {
      if started.None? || now - started.value > ActiveWindow(timeout) {
        normalized := "failed";
        if Blank(error) {
          error := Some(Wording(if started.None? then NeverStarted else ActiveTooLong));
        }
      } else {
        normalized := "running";
      }
    } else if normalized in QUEUED_STATUSES {
      normalized := "queued";
      if started.Some? && now - started.value > QueuedWindow(timeout) {
        normalized := "failed";
        if Blank(error) {
          error := Some(Wording(QueuedTooLong));
        }
      }
    }

    if normalized == "completed" && Token(run.runType) == "user" {
      var partial := HasPartialSyncRunMetrics(run.metrics);
      if partial {
        normalized := "partial";
        if Blank(error) {
          error := Some(Wording(Incomplete));
        }
      }
    }

    if normalized == token && error == run.lastError {
      return run;
    }
    r := run.(status := if normalized != "" then normalized else run.status, lastError := error);
  }

  // ----- Confluence in time -----

  lemma ShownTokens()
    ensures Token("completed") == "completed" && Token("partial") == "partial" && Token("failed") == "failed"
    ensures Token("running") == "running" && Token("queued") == "queued"
  {
    hide Token, TrimJs, LowerJs;
    PlainToken("completed");
    PlainToken("partial");
    PlainToken("failed");
    PlainToken("running");
    PlainToken("queued");
  }

  /** A correction is final. */
  lemma CorrectionIsFinal(r: RunRecord, t1: int, t2: int, timeout: int)
    requires Judge(r, t1, timeout).Correct?
    ensures Normalized(Normalized(r, t1, timeout), t2, timeout) == Normalized(r, t1, timeout)
  {
    hide Token, TrimJs, Wording, ShowsGaps;
    ShownTokens();
  }

  /** A correction made at one time would be made, with the same words, at every later time. */
  lemma CorrectionStands(r: RunRecord, t1: int, t2: int, timeout: int)
    requires t1 <= t2 && Judge(r, t1, timeout).Correct?
    ensures Judge(r, t2, timeout) == Judge(r, t1, timeout)
  {
    hide Token, TrimJs, Wording, ShowsGaps;
  }

  function Later(t1: int, t2: int): int { if t1 < t2 then t2 else t1 }

  /** Looking at a run twice shows what looking once, at the later of the two times, shows;
      the clock may even have gone back in between. */
  lemma Confluent(r: RunRecord, t1: int, t2: int, timeout: int)
    ensures Normalized(Normalized(r, t1, timeout), t2, timeout) == Normalized(r, Later(t1, t2), timeout)
  {
    hide Normalized, Judge, Finished;
    if Judge(r, t1, timeout).Correct? {
      CorrectionIsFinal(r, t1, t2, timeout);
      CorrectionStands(r, t1, Later(t1, t2), timeout);
      SameVerdict(r, t1, Later(t1, t2), timeout);
    } else if Finished(r) {
      FinishedIsTimeless(r, t1, t2, timeout);
    } else if t1 <= t2 {
      ShownIsProvisional(r, t1, t2, timeout);
    } else {
      EarlierLookIsNoNews(r, t1, t2, timeout);
    }
  }

  lemma SameVerdict(r: RunRecord, t1: int, t2: int, timeout: int)
    requires Judge(r, t1, timeout) == Judge(r, t2, timeout)
    ensures Normalized(r, t1, timeout) == Normalized(r, t2, timeout)
  {
  }

  lemma FinishedIsTimeless(r: RunRecord, t1: int, t2: int, timeout: int)
    requires Finished(r) && !Judge(r, t1, timeout).Correct?
    ensures Normalized(r, t1, timeout) == Normalized(r, t2, timeout)
    ensures Normalized(Normalized(r, t1, timeout), t2, timeout) == Normalized(r, t1, timeout)
  {
    hide Token, TrimJs, Wording, ShowsGaps, Millis;
    ShownTokens();
  }

  lemma ShownIsProvisional(r: RunRecord, t1: int, t2: int, timeout: int)
    requires t1 <= t2 && !Finished(r) && !Judge(r, t1, timeout).Correct?
    ensures Normalized(Normalized(r, t1, timeout), t2, timeout) == Normalized(r, t2, timeout)
  {
    hide Token, TrimJs, Wording, ShowsGaps, Millis;
    ShownTokens();
  }

  lemma EarlierLookIsNoNews(r: RunRecord, t1: int, t2: int, timeout: int)
    requires t2 < t1 && !Finished(r) && !Judge(r, t1, timeout).Correct?
    ensures Normalized(Normalized(r, t1, timeout), t2, timeout) == Normalized(r, t1, timeout)
  {
    hide Token, TrimJs, Wording, ShowsGaps, Millis;
    ShownTokens();
  }

  function Polled(r: RunRecord, times: seq<int>, timeout: int): RunRecord {
    if times == [] then r
    else Normalized(Polled(r, times[..|times| - 1], timeout), times[|times| - 1], timeout)
  }

  function Latest(times: seq<int>): (latest: int)
    requires times != []
    ensures latest in times && forall t :: t in times ==> t <= latest
  {
    var n := |times| - 1;
    assert times == times[..n] + [times[n]];
    if n == 0 then times[0] else Later(Latest(times[..n]), times[n])
  }

  /** However often a run is normalised on the way, only the latest time matters. */
  lemma {:induction false} OnlyLatestLookMatters(r: RunRecord, times: seq<int>, timeout: int)
    requires times != []
    ensures Polled(r, times, timeout) == Normalized(r, Latest(times), timeout)
  {
    hide Normalized;
    var n := |times| - 1;
    if n > 0 {
      OnlyLatestLookMatters(r, times[..n], timeout);
      Confluent(r, Latest(times[..n]), times[n], timeout);
    }
  }

  lemma Idempotent(r: RunRecord, now: int, timeout: int)
    ensures Normalized(Normalized(r, now, timeout), now, timeout) == Normalized(r, now, timeout)
  {
    Confluent(r, now, now, timeout);
  }

  // ----- What is shown -----

  /** A failed or partial run stays so, at any time. */
  lemma NeverActiveAgain(r: RunRecord, now: int, timeout: int)
    requires Canonical(r.status) in {Failed, Partial}
    ensures Canonical(Normalized(r, now, timeout).status) == Canonical(r.status)
  {
    hide Token, TrimJs, Wording, ShowsGaps;
    ShownTokens();
  }

  /** Exactly when a run is shown as running or as queued. */
  lemma ShownActive(r: RunRecord, now: int, timeout: int)
    ensures Canonical(Normalized(r, now, timeout).status).Running? <==>
              && !Finished(r) && (Token(r.status) == "" || Canonical(r.status).Running?)
              && Started(r).Some? && now - Started(r).value <= ActiveWindow(timeout)
    ensures Canonical(Normalized(r, now, timeout).status).Queued? <==>
              && !Finished(r)
              && if Started(r).None? then Token(r.status) == "" || Canonical(r.status).Queued?
                 else Canonical(r.status).Queued? && now - Started(r).value <= QueuedWindow(timeout)
  {
    hide Token, TrimJs, Wording, ShowsGaps;
    ShownTokens();
  }

  /** A finished run is never shown as running or queued. */
  lemma FinishedIsNotActive(r: RunRecord, now: int, timeout: int)
    requires Finished(r)
    ensures Canonical(Normalized(r, now, timeout).status) !in {Running, Queued}
  {
    ShownActive(r, now, timeout);
  }

  /** An error that says something is never replaced, and a run turned failed or partial
      by the clock or the metrics always says why. Nothing else about the run changes. */
  lemma ErrorsExplain(r: RunRecord, now: int, timeout: int)
    ensures var n := Normalized(r, now, timeout);
            && n == r.(status := n.status, lastError := n.lastError)
            && (!Blank(r.lastError) ==> n.lastError == r.lastError)
            && (Canonical(n.status) in {Failed, Partial} && Canonical(r.status) !in {Failed, Partial} ==> !Blank(n.lastError))
  {
    hide Token, TrimJs, Wording, ShowsGaps;
    ShownTokens();
    forall reason: Reason
      ensures !Blank(Some(Wording(reason)))
    {
      WordingIsVisible(reason);
    }
  }

  // ----- Exactly what is shown -----

  ghost predicate HasTime(stamp: Stamp) { TrimJs(stamp.text) != "" && stamp.millis.Some? }

  ghost predicate HasFinished(r: RunRecord) { r.finishedAt.Some? && HasTime(r.finishedAt.value) }

  /** Started, and longer ago than the window. */
  ghost predicate StartedBefore(r: RunRecord, now: int, window: int) {
    HasTime(r.startedAt) && now - r.startedAt.millis.value > window
  }

  /** The run is over by its status. */
  ghost predicate Done(r: RunRecord) {
    if HasFinished(r) then Token(r.status) in {"", "completed", "succeeded", "success", "done"} else Token(r.status) == "completed"
  }

  /** A metric is at least one. */
  ghost predicate Counted(m: Metrics, key: string) { key in m && m[key].Finite? && m[key].value >= 1.0 }

  /** A user run with trouble in its metrics, or whose searches found nothing. */
  ghost predicate Troubled(r: RunRecord) {
    && Token(r.runType) == "user" && r.metrics.Some?
    && var m := r.metrics.value;
       || (exists k :: k in PARTIAL_KEYS && Counted(m, k))
       || (&& Counted(m, "authored_pull_request_search_queries") && !Counted(m, "authored_pull_requests_selected")
           && !Counted(m, "authored_pull_request_discovery_targets"))
  }

  lemma TroubledMeans(r: RunRecord)
    ensures Troubled(r) <==> Token(r.runType) == "user" && ShowsGaps(r.metrics)
    ensures HasFinished(r) <==> Finished(r)
    ensures HasTime(r.startedAt) <==> Started(r).Some?
    ensures HasTime(r.startedAt) ==> Started(r).value == r.startedAt.millis.value
  {
    hide Token, TrimJs;
  }

  /** The windows are twice thirty seconds wider than the execution may take, within bounds. */
  lemma WindowsMean(timeout: int)
    ensures ActiveWindow(timeout) == if timeout <= 90_000 then 120_000 else timeout + 30_000
    ensures QueuedWindow(timeout) == 2 * ActiveWindow(timeout) && QueuedWindow(timeout) >= 240_000
  {
  }

  /** Exactly which runs are shown as completed, partial and failed; all that remains is running,
      queued or of an unknown status. */
  lemma ShownSettled(r: RunRecord, now: int, timeout: int)
    ensures Canonical(Normalized(r, now, timeout).status).Completed? <==>
              || (Done(r) && !Troubled(r))
              || (!HasFinished(r) && Token(r.status) in {"succeeded", "success", "done"})
    ensures Canonical(Normalized(r, now, timeout).status).Partial? <==>
              || Token(r.status) == "partial"
              || (Done(r) && Troubled(r))
    ensures Canonical(Normalized(r, now, timeout).status).Failed? <==>
              var token := Token(r.status);
              || token in {"failed", "cancelled", "canceled", "timed_out", "timeout"}
              || (HasFinished(r) && token in {"running", "syncing", "in_progress", "queued", "pending"})
              || (!HasFinished(r) && token in {"running", "syncing", "in_progress"} && !HasTime(r.startedAt))
              || (!HasFinished(r) && token in {"", "running", "syncing", "in_progress"} && StartedBefore(r, now, ActiveWindow(timeout)))
              || (!HasFinished(r) && token in {"queued", "pending"} && StartedBefore(r, now, QueuedWindow(timeout)))
  {
    ShownTokens();
    TroubledMeans(r);
    hide Token, TrimJs, Wording, ShowsGaps, Troubled, HasFinished, Finished, HasTime, Millis, ActiveWindow, QueuedWindow;
  }

  /** Why a run was corrected, in the order in which reasons are looked for. */
  ghost function ReasonFor(r: RunRecord, now: int, timeout: int): Option<Reason> {
    var token := Token(r.status);
    if HasFinished(r) && token in {"running", "syncing", "in_progress", "queued", "pending"} then Some(NotTerminal)
    else if !HasFinished(r) && token in {"running", "syncing", "in_progress"} && !HasTime(r.startedAt) then Some(NeverStarted)
    else if !HasFinished(r) && token in {"", "running", "syncing", "in_progress"} && StartedBefore(r, now, ActiveWindow(timeout)) then Some(ActiveTooLong)
    else if !HasFinished(r) && token in {"queued", "pending"} && StartedBefore(r, now, QueuedWindow(timeout)) then Some(QueuedTooLong)
    else if Done(r) && Troubled(r) then Some(Incomplete)
    else None
  }

  /** A run that is corrected and says no error gets the one that fits; every other keeps its own. */
  lemma ErrorsExactly(r: RunRecord, now: int, timeout: int)
    ensures Normalized(r, now, timeout).lastError
            == if Blank(r.lastError) && ReasonFor(r, now, timeout).Some? then Some(Wording(ReasonFor(r, now, timeout).value)) else r.lastError
  {
    ShownTokens();
    TroubledMeans(r);
    hide Token, TrimJs, Wording, ShowsGaps, Troubled, HasFinished, Finished, HasTime, Millis, ActiveWindow, QueuedWindow;
  }
}
