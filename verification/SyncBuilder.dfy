/** From a sync request to its queue job, and what the job's dedupe key identifies. */
module SyncBuilder {
  import opened Common
  import opened Text
  import opened Requests
  import R = Requests
  import Jobs

  datatype Value = Str(text: string) | Num(number: int)

  type Payload = map<string, Value>

  function JobTypeOf(mode: string): string {
    match mode
    case "installation" => "sync.installation"
    case "user" => "sync.user_history"
    case "repository" => "sync.repository"
    case "pull_request" => "sync.pull_request"
    case "review" => "sync.review"
    case "issue" => "sync.issue"
    case "commit" => "sync.commit"
    case "analysis_pull_request" => "analysis.pull_request"
    case "report_materialize_pull_request" => "report.materialize_pull_request"
    case "report_backfill_user_pull_requests" => "report.backfill_user_pull_requests"
    case "quest_backfill_user" => "quest.backfill_user"
    case "score_history_backfill_user" => "score_history.backfill_user"
    case "badge_backfill_user" => "badge.backfill_user"
    case "backfill_user_history" => "pipeline.backfill_user_history"
    case "grade_pull_request" => "pipeline.grade_pull_request"
    case "score_replay" => "score.replay_user"
    case "profile_refresh" => "profile.refresh_user"
    case "leaderboard_materialize_season" => "leaderboard.materialize_season"
    case "leaderboard_backfill_history" => "leaderboard.backfill_history"
    case _ => ""
  }

  // ----- Subjects and keys -----

  /** The part of the printed key after the mode. */
  function KeyTail(r: Request): string {
    match KindOf(r.mode)
    case Installation => Dec(r.installationID)
    case User => Lower(r.user)
    case Repository => r.repository
    case Numbered => r.repository + "#" + Dec(r.number)
    case Grade => r.userID + ":" + (r.repository + "#" + Dec(r.number))
    case Commit => r.repository + "@" + r.sha
    case PerUser => r.userID
    case Global => if r.mode == "leaderboard_materialize_season" then "current" else "global"
    case Unsupported => ""
  }

  function DedupeKey(r: Request): string { r.mode + ":" + KeyTail(r) }

  function Subject(r: Request): string {
    match KindOf(r.mode)
    case Grade => r.repository + "#" + Dec(r.number)
    case Global => if r.mode == "leaderboard_materialize_season" then "current" else "history"
    case _ => KeyTail(r)
  }

  function PayloadOf(r: Request): Payload {
    match KindOf(r.mode)
    case Installation => map["mode" := Str(r.mode), "installation_id" := Num(r.installationID)]
    case User => map["mode" := Str(r.mode), "user" := Str(r.user)]
    case Repository => Context(r)
    case Numbered => Context(r)["number" := Num(r.number)]
    case Commit => Context(r)["sha" := Str(r.sha)]
    case Grade =>
      map["mode" := Str(r.mode), "user_id" := Str(r.userID), "repository" := Str(r.repository), "number" := Num(r.number)]
    case PerUser => map["mode" := Str(r.mode), "user_id" := Str(r.userID)]
    case Global => map["mode" := Str(r.mode)]
    case Unsupported => map[]
  }

  /** Repository jobs carry the user and the installation when the request names them. */
  function Context(r: Request): Payload {
    var base := map["repository" := Str(r.repository), "mode" := Str(r.mode)];
    var user := if r.user != "" then base["user" := Str(r.user)] else base;
    if r.installationID > 0 then user["installation_id" := Num(r.installationID)] else user
  }

  function InputFor(r: Request, queueName: string, correlationID: string, maxAttempts: int): Jobs.JobInput {
    var kind := KindOf(r.mode);
    var about := kind == Repository || kind == Numbered || kind == Commit;
    Jobs.JobInput(queueName, JobTypeOf(r.mode), correlationID, "",
                  if kind == Installation || about then r.installationID else 0,
                  if kind == Grade || about then r.repository else "",
                  Subject(r), DedupeKey(r), maxAttempts, None, None)
  }

  /** Every request yields one job or an error. `encode` stands for the JSON encoder, which
      accepts every such payload. */
  function Build(req: Request, queueName: string, correlationID: string, maxAttempts: int,
                 encode: Payload -> string, now: int, id: string): Result<Jobs.Job>
  {
    match Normalize(req)
    case Err(message) => Err(message)
    case Ok(r) => Jobs.NewQueueJob(InputFor(r, queueName, correlationID, maxAttempts), Some(encode(PayloadOf(r))), now, id)
  }

  method BuildSyncJobs(req: Request, queueName: string, correlationID: string, maxAttempts: int,
                       encode: Payload -> string, now: int, id: string)
    returns (r: Result<seq<Jobs.Job>>)
    ensures match Build(req, queueName, correlationID, maxAttempts, encode, now, id)
            case Ok(job) => r == Ok([job])
            case Err(message) => r == Err(message)
  {
    hide Normalize, Tidy, KindOf, IsRepository, IsLogin, IsUUID, JobTypeOf, Lower, Dec, Jobs.NewQueueJob;
    var local := new SyncRequest(req);
    var failure := local.NormalizeInPlace();
    if failure.Some? {
      return Err(failure.value);
    }
    ghost var n := local.Value();
    NormalizeEstablishes(req);
    var mode := local.mode;
    var input := Jobs.JobInput(queueName, JobTypeOf(mode), correlationID, "", 0, "", "", "", maxAttempts, None, None);
    var payload: Payload := map["mode" := Str(mode)];
    match KindOf(mode) {
      case Installation =>
        var subject := Dec(local.installationID);
        input := input.(installationID := local.installationID, subject := subject, dedupeKey := mode + ":" + subject);
        payload := payload["installation_id" := Num(local.installationID)];
      case User =>
        var userKey := Lower(local.user);
        input := input.(subject := userKey, dedupeKey := mode + ":" + userKey);
        payload := payload["user" := Str(local.user)];
      case Grade =>
        var subject := local.repository + "#" + Dec(local.number);
        input := input.(repository := local.repository, subject := subject,
                        dedupeKey := mode + ":" + (local.userID + ":" + subject));
        payload := payload["user_id" := Str(local.userID)];
        payload := payload["repository" := Str(local.repository)];
        payload := payload["number" := Num(local.number)];
      case PerUser =>
        input := input.(subject := local.userID, dedupeKey := mode + ":" + local.userID);
        payload := payload["user_id" := Str(local.userID)];
      case Global =>
        if mode == "leaderboard_materialize_season" {
          input := input.(subject := "current", dedupeKey := mode + ":" + "current");
        } else {
          input := input.(subject := "history", dedupeKey := mode + ":" + "global");
        }
      case Unsupported =>
        assert false;
      case Repository =>
        input := input.(installationID := local.installationID, repository := local.repository,
                        subject := local.repository, dedupeKey := mode + ":" + local.repository);
        payload := payload["repository" := Str(local.repository)];
        if local.user != "" {
          payload := payload["user" := Str(local.user)];
        }
        if local.installationID > 0 {
          payload := payload["installation_id" := Num(local.installationID)];
        }
      case Numbered =>
        input, payload := ResourceJob(input, mode, local.repository, local.number, "", local.user, local.installationID);
      case Commit =>
        input, payload := ResourceJob(input, mode, local.repository, 0, local.sha, local.user, local.installationID);
    }
    assert payload == PayloadOf(n);
    assert input == InputFor(n, queueName, correlationID, maxAttempts);
    var created := Jobs.NewQueueJob(input, Some(encode(payload)), now, id);
    if created.Err? {
      return Err(created.message);
    }
    return Ok([created.value]);
  }

  /** The printed name of something in a repository. */
  function ResourceName(repository: string, number: int, sha: string): string {
    if sha != "" then repository + "@" + sha
    else if number > 0 then repository + "#" + Dec(number)
    else repository
  }

  /** Fills in the job of something numbered in a repository, or of a commit. */
  method ResourceJob(base: Jobs.JobInput, mode: string, repository: string, number: int, sha: string,
                     user: string, installationID: int)
    returns (input: Jobs.JobInput, payload: Payload)
    ensures var name := ResourceName(repository, number, sha);
            input == base.(installationID := installationID, repository := repository, subject := name, dedupeKey := mode + ":" + name)
    ensures var context := Context(Request(user, "", repository, mode, installationID, number, sha));
            var numbered := if number > 0 then context["number" := Num(number)] else context;
            payload == if sha != "" then numbered["sha" := Str(sha)] else numbered
  {
    hide Dec;
    var subject := repository;
    payload := map["repository" := Str(repository), "mode" := Str(mode)];
    if user != "" {
      payload := payload["user" := Str(user)];
    }
    if installationID > 0 {
      payload := payload["installation_id" := Num(installationID)];
    }
    var dedupeKey := mode + ":" + repository;
    if number > 0 {
      subject := repository + "#" + Dec(number);
      payload := payload["number" := Num(number)];
      dedupeKey := mode + ":" + subject;
    }
    if sha != "" {
      subject := repository + "@" + sha;
      payload := payload["sha" := Str(sha)];
      dedupeKey := mode + ":" + subject;
    }
    input := base.(installationID := installationID, repository := repository, subject := subject, dedupeKey := dedupeKey);
  }

  // ----- What the key identifies -----

  /** The thing a request asks to be worked on. */
  datatype Target =
    | OfInstallation(id: int)
    | OfLogin(login: string)
    | OfRepository(repository: string)
    | OfNumbered(repository: string, number: int)
    | OfCommit(repository: string, sha: string)
    | OfUser(userID: string)
    | OfGrading(userID: string, repository: string, number: int)
    | OfEveryone

  /** Logins are the same up to case; everything else is the same only exactly. */
  function TargetOf(r: Request): Target {
    match KindOf(r.mode)
    case Installation => OfInstallation(r.installationID)
    case User => OfLogin(Lower(r.user))
    case Repository => OfRepository(r.repository)
    case Numbered => OfNumbered(r.repository, r.number)
    case Commit => OfCommit(r.repository, r.sha)
    case PerUser => OfUser(r.userID)
    case Grade => OfGrading(r.userID, r.repository, r.number)
    case _ => OfEveryone
  }

  /** Owner and name, and nothing else: in particular none of the separators of a key. */
  predicate IsRepositoryChar(c: char) { IsRepoChar(c) || c == '/' }

  lemma RepositoryChars(s: string)
    requires IsRepository(s)
    ensures s != "" && All(s, IsRepositoryChar)
  {
    var i := Find(s, '/');
    forall k | 0 <= k < |s|
      ensures IsRepositoryChar(s[k])
    {
      if k < i {
        assert s[..i][k] == s[k];
      } else if k > i {
        assert s[i + 1..][k - i - 1] == s[k];
      }
    }
  }

  /** A mode starts with a letter and contains no key separator. */
  predicate ModeName(s: string) { s != "" && IsLetter(s[0]) && ':' !in s }

  lemma BackfillModeNames()
    ensures ModeName("report_backfill_user_pull_requests") && ModeName("backfill_user_history")
    ensures ModeName("quest_backfill_user")
  {
  }

  lemma PerUserModeName(mode: string)
    requires PerUserMode(mode)
    ensures ModeName(mode)
  {
    BackfillModeNames();
    if mode == "score_history_backfill_user" {
      assert ModeName("score_history_backfill_user");
    }
  }

  lemma NumberedModeName(mode: string)
    requires NumberedMode(mode)
    ensures ModeName(mode)
  {
  }

  lemma GlobalModeName(mode: string)
    requires GlobalMode(mode)
    ensures ModeName(mode)
  {
  }

  lemma SupportedModeName(mode: string)
    requires KindOf(mode) != Unsupported
    ensures ModeName(mode)
  {
    hide NumberedMode, PerUserMode, GlobalMode;
    match KindOf(mode) {
      case PerUser => PerUserModeName(mode);
      case Numbered => NumberedModeName(mode);
      case Global => GlobalModeName(mode);
      case _ =>
    }
  }

  lemma NumberedUnique(a: string, m: int, b: string, n: int)
    requires IsRepository(a) && IsRepository(b) && a + "#" + Dec(m) == b + "#" + Dec(n)
    ensures a == b && m == n
  {
    RepositoryChars(a);
    RepositoryChars(b);
    CutUnique(a, Dec(m), b, Dec(n), '#');
    DecInjective(m, n);
  }

  lemma CommitUnique(a: string, s: string, b: string, t: string)
    requires IsRepository(a) && IsRepository(b) && a + "@" + s == b + "@" + t
    ensures a == b && s == t
  {
    RepositoryChars(a);
    RepositoryChars(b);
    CutUnique(a, s, b, t, '@');
  }

  /** Within one mode the tail of the key determines the target. */
  lemma TailUnique(r: Request, q: Request)
    requires Normalized(r) && Normalized(q) && r.mode == q.mode && KeyTail(r) == KeyTail(q)
    ensures TargetOf(r) == TargetOf(q)
  {
    hide IsRepository, Dec, Lower, KindOf, IsLogin, IsCommit;
    match KindOf(r.mode) {
      case Installation => DecInjective(r.installationID, q.installationID);
      case Numbered => NumberedUnique(r.repository, r.number, q.repository, q.number);
      case Grade =>
        CutUnique(r.userID, r.repository + "#" + Dec(r.number), q.userID, q.repository + "#" + Dec(q.number), ':');
        NumberedUnique(r.repository, r.number, q.repository, q.number);
      case Commit => CommitUnique(r.repository, r.sha, q.repository, q.sha);
      case _ =>
    }
  }

  /** Two normalised requests print the same key exactly when they ask for the same mode of
      work on the same target. */
  lemma SameKeySameWork(r: Request, q: Request)
    requires Normalized(r) && Normalized(q)
    ensures DedupeKey(r) == DedupeKey(q) <==> r.mode == q.mode && TargetOf(r) == TargetOf(q)
  {
    hide KeyTail, TargetOf, KindOf, IsRepository, IsLogin, IsCommit;
    SupportedModeName(r.mode);
    SupportedModeName(q.mode);
    if DedupeKey(r) == DedupeKey(q) {
      CutUnique(r.mode, KeyTail(r), q.mode, KeyTail(q), ':');
      TailUnique(r, q);
    }
    if r.mode == q.mode && TargetOf(r) == TargetOf(q) {
      TargetGivesTail(r, q);
    }
  }

  lemma TargetGivesTail(r: Request, q: Request)
    requires r.mode == q.mode && TargetOf(r) == TargetOf(q)
    ensures KeyTail(r) == KeyTail(q)
  {
    hide KindOf, Lower, Dec;
  }

  /** What the payload says under a name. */
  function Says(p: Payload, name: string): Option<Value> { if name in p then Some(p[name]) else None }

  lemma ContextSays(r: Request)
    ensures Says(Context(r), "mode") == Some(Str(r.mode)) && Says(Context(r), "repository") == Some(Str(r.repository))
    ensures Says(Context(r), "user") == if r.user != "" then Some(Str(r.user)) else None
    ensures Says(Context(r), "installation_id") == if r.installationID > 0 then Some(Num(r.installationID)) else None
  {
  }

  lemma PayloadSays(r: Request)
    requires Normalized(r)
    ensures var p := PayloadOf(r);
            && Says(p, "mode") == Some(Str(r.mode))
            && match KindOf(r.mode)
               case Installation => Says(p, "installation_id") == Some(Num(r.installationID))
               case User => Says(p, "user") == Some(Str(r.user))
               case Repository => Says(p, "repository") == Some(Str(r.repository))
               case Numbered => Says(p, "repository") == Some(Str(r.repository)) && Says(p, "number") == Some(Num(r.number))
               case Commit => Says(p, "repository") == Some(Str(r.repository)) && Says(p, "sha") == Some(Str(r.sha))
               case PerUser => Says(p, "user_id") == Some(Str(r.userID))
               case Grade =>
                 && Says(p, "user_id") == Some(Str(r.userID)) && Says(p, "repository") == Some(Str(r.repository))
                 && Says(p, "number") == Some(Num(r.number))
               case _ => true
  {
    hide KindOf, Context, IsRepository, IsLogin, IsCommit, IsUUID;
    ContextSays(r);
  }

  /** The payload alone tells the worker the mode and the target. */
  lemma PayloadCarriesTarget(r: Request, q: Request)
    requires Normalized(r) && Normalized(q) && PayloadOf(r) == PayloadOf(q)
    ensures r.mode == q.mode && TargetOf(r) == TargetOf(q) && DedupeKey(r) == DedupeKey(q)
  {
    hide PayloadOf, KindOf, Says, Lower, KeyTail, Normalized;
    PayloadSays(r);
    PayloadSays(q);
    TargetGivesTail(r, q);
  }

  /** A printed key is visible ASCII throughout, so storing it trims nothing off. */
  lemma KeyIsPlain(r: Request)
    requires Normalized(r)
    ensures DedupeKey(r) != "" && TrimGo(DedupeKey(r)) == DedupeKey(r)
  {
    hide KindOf, KeyTail, TrimLeft, TrimRight;
    SupportedModeName(r.mode);
    TailEndsPlain(r);
    var key := DedupeKey(r);
    assert key[0] == r.mode[0] && key[|key| - 1] == KeyTail(r)[|KeyTail(r)| - 1];
    assert Trimmed(key, IsGoSpace);
  }

  lemma TailEndsPlain(r: Request)
    requires Normalized(r)
    ensures KeyTail(r) != "" && IsPlain(KeyTail(r)[|KeyTail(r)| - 1])
  {
    hide IsRepository, KindOf;
    match KindOf(r.mode) {
      case Installation => DecChars(r.installationID);
      case User => LowerKeepsShape(r.user);
      case Repository => RepositoryChars(r.repository);
      case Numbered => DecChars(r.number);
      case Grade => DecChars(r.number);
      case _ =>
    }
  }

  // ----- What is built -----

  /** The job types of the modes. */
  lemma JobTypeNames()
    ensures JobTypeOf("installation") == "sync.installation" && JobTypeOf("user") == "sync.user_history"
    ensures JobTypeOf("repository") == "sync.repository" && JobTypeOf("pull_request") == "sync.pull_request"
    ensures JobTypeOf("review") == "sync.review" && JobTypeOf("issue") == "sync.issue" && JobTypeOf("commit") == "sync.commit"
    ensures JobTypeOf("analysis_pull_request") == "analysis.pull_request"
    ensures JobTypeOf("report_materialize_pull_request") == "report.materialize_pull_request"
  {
  }

  lemma UserJobTypeNames()
    ensures JobTypeOf("report_backfill_user_pull_requests") == "report.backfill_user_pull_requests"
    ensures JobTypeOf("quest_backfill_user") == "quest.backfill_user"
    ensures JobTypeOf("score_history_backfill_user") == "score_history.backfill_user"
    ensures JobTypeOf("badge_backfill_user") == "badge.backfill_user"
    ensures JobTypeOf("backfill_user_history") == "pipeline.backfill_user_history"
  {
  }

  lemma OtherJobTypeNames()
    ensures JobTypeOf("grade_pull_request") == "pipeline.grade_pull_request"
    ensures JobTypeOf("score_replay") == "score.replay_user" && JobTypeOf("profile_refresh") == "profile.refresh_user"
    ensures JobTypeOf("leaderboard_materialize_season") == "leaderboard.materialize_season"
    ensures JobTypeOf("leaderboard_backfill_history") == "leaderboard.backfill_history"
  {
  }

  lemma SupportedHasJobType(mode: string)
    requires KindOf(mode) != Unsupported
    ensures JobTypeOf(mode) != ""
  {
    hide KindOf;
    KindNames(mode);
    KindIsOneOf(mode);
    JobTypeNames();
    UserJobTypeNames();
    OtherJobTypeNames();
    hide JobTypeOf;
  }

  lemma KindIsOneOf(mode: string)
    ensures KindOf(mode) in {Installation, User, R.Repository, Numbered, Grade, R.Commit, PerUser, Global, Unsupported}
  {
  }

  /** What the job is about, in print. */
  function Printed(r: Request): string {
    match KindOf(r.mode)
    case Installation => Dec(r.installationID)
    case User => Lower(r.user)
    case Repository => r.repository
    case Numbered => r.repository + "#" + Dec(r.number)
    case Grade => r.repository + "#" + Dec(r.number)
    case Commit => r.repository + "@" + r.sha
    case PerUser => r.userID
    case Global => if r.mode == "leaderboard_materialize_season" then "current" else "history"
    case Unsupported => ""
  }

  lemma InputSays(r: Request, queue: string, correlation: string, attempts: int)
    requires KindOf(r.mode) != Unsupported
    ensures var input, subject := InputFor(r, queue, correlation, attempts), Printed(r);
            && input.queueName == queue && input.jobType == JobTypeOf(r.mode) && input.correlationID == correlation
            && input.deliveryID == "" && input.maxAttempts == attempts && input.subject == subject
            && input.scheduledAt == None && input.notBefore == None
            && input.dedupeKey == r.mode + ":" + (if KindOf(r.mode) == Grade then r.userID + ":" + subject
                                                  else if r.mode == "leaderboard_backfill_history" then "global" else subject)
            && input.installationID == (if KindOf(r.mode) in {Installation, R.Repository, Numbered, R.Commit} then r.installationID else 0)
            && input.repository == (if KindOf(r.mode) in {R.Repository, Numbered, R.Commit, Grade} then r.repository else "")
  {
    hide KindOf, JobTypeOf, Lower, Dec;
    KindNames(r.mode);
  }

  /** A job is built exactly of an accepted request, for a named queue with a positive attempt
      limit. It is about what the request names, and its key tells the mode as well. */
  lemma BuildAnswers(req: Request, queue: string, correlation: string, attempts: int, encode: Payload -> string, now: int, id: string)
    ensures var job := Build(req, queue, correlation, attempts, encode, now, id);
            && (job.Ok? <==> Normalize(req).Ok? && TrimGo(queue) != "" && attempts > 0)
            && (job.Ok? ==>
                  var r, j := Normalize(req).value, job.value;
                  var subject := Printed(r);
                  && Jobs.Brandnew(j) && j.id == id && j.queueName == queue && j.jobType == JobTypeOf(r.mode)
                  && j.correlationID == TrimGo(correlation) && j.deliveryID == TrimGo("") && j.maxAttempts == attempts
                  && j.payload == encode(PayloadOf(r)) && j.scheduledAt == now && j.notBefore == now
                  && j.subject == TrimGo(subject)
                  && j.dedupeKey == TrimGo(r.mode + ":" + (if KindOf(r.mode) == Grade then r.userID + ":" + subject
                                                           else if r.mode == "leaderboard_backfill_history" then "global" else subject))
                  && j.installationID == (if KindOf(r.mode) in {Installation, R.Repository, Numbered, R.Commit} then r.installationID else 0)
                  && j.repository == TrimGo(if KindOf(r.mode) in {R.Repository, Numbered, R.Commit, Grade} then r.repository else ""))
  {
    hide Normalize, TrimGo, JobTypeOf, PayloadOf, KindOf, Lower, Dec, Jobs.NewQueueJob, InputFor, Printed;
    if Normalize(req).Ok? {
      NormalizeEstablishes(req);
      var r := Normalize(req).value;
      SupportedHasJobType(r.mode);
      InputSays(r, queue, correlation, attempts);
      Jobs.NewQueueJobIsBrandnew(InputFor(r, queue, correlation, attempts), Some(encode(PayloadOf(r))), now, id);
    }
  }

  /** End to end: two requests that both build a job get the same dedupe key exactly when
      they ask for the same work. */
  lemma BuiltKeys(r: Request, q: Request, queue: string, correlation: string, attempts: int, encode: Payload -> string,
                  now: int, id: string, queue': string, correlation': string, attempts': int, now': int, id': string)
    ensures var j, k := Build(r, queue, correlation, attempts, encode, now, id), Build(q, queue', correlation', attempts', encode, now', id');
            j.Ok? && k.Ok? ==>
              && Normalize(r).Ok? && Normalize(q).Ok?
              && var n, m := Normalize(r).value, Normalize(q).value;
              && Jobs.Brandnew(j.value) && j.value.dedupeKey == DedupeKey(n) != ""
              && (j.value.dedupeKey == k.value.dedupeKey <==> n.mode == m.mode && TargetOf(n) == TargetOf(m))
  {
    hide Normalize, DedupeKey, TargetOf, TrimGo, JobTypeOf, PayloadOf, Subject;
    if Build(r, queue, correlation, attempts, encode, now, id).Ok? && Build(q, queue', correlation', attempts', encode, now', id').Ok? {
      var n, m := Normalize(r).value, Normalize(q).value;
      NormalizeEstablishes(r);
      NormalizeEstablishes(q);
      KeyIsPlain(n);
      KeyIsPlain(m);
      SameKeySameWork(n, m);
    }
  }
}
