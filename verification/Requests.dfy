/** Validation and normalisation of sync requests. The regular expressions of the program
    are written as character predicates. */
module Requests {
  import opened Common
  import opened Text

  datatype Request = Request(
    user: string, userID: string, repository: string, mode: string,
    installationID: int, number: int, sha: string)

  // ----- Shapes -----

  predicate IsAlnum(c: char) { IsLetter(c) || IsDigit(c) }

  predicate IsLoginChar(c: char) { IsAlnum(c) || c == '-' }

  predicate IsRepoChar(c: char) { IsAlnum(c) || c == '.' || c == '_' || c == '-' }

  predicate IsLogin(s: string) {
    1 <= |s| <= 39 && All(s, IsLoginChar) && IsAlnum(s[0]) && IsAlnum(s[|s| - 1])
  }

  predicate IsRepoName(s: string) { 1 <= |s| <= 100 && All(s, IsRepoChar) && s != "." && s != ".." }

  predicate IsCommit(s: string) { 6 <= |s| <= 64 && All(s, IsHex) }

  predicate IsDash(i: nat) { i == 8 || i == 13 || i == 18 || i == 23 }

  predicate IsUUID(s: string) {
    |s| == 36 && forall i :: 0 <= i < 36 ==> if IsDash(i) then s[i] == '-' else IsHex(s[i])
  }

  /** owner/name */
  predicate IsRepository(s: string) {
    var i := Find(s, '/');
    i < |s| && IsLogin(s[..i]) && IsRepoName(s[i + 1..])
  }

  /** Visible ASCII; nothing of this is white space. */
  predicate IsPlain(c: char) { '!' <= c <= '~' }

  // ----- Field normalisers -----

  function NormalizeLogin(value: string): Result<string> {
    var v := TrimGo(value);
    if v == "" then Err("GitHub login is required")
    else if !IsLogin(v) then Err("invalid GitHub login")
    else Ok(v)
  }

  predicate HasAny(s: string, chars: string) { exists i :: 0 <= i < |s| && s[i] in chars }

  function NormalizeRepository(value: string): Result<string> {
    var v := TrimGo(value);
    if v == "" then Err("repository is required")
    else if HasAny(v, "\\?#@") || Contains(v, "://") then Err("repository must be in owner/name form")
    else
      var i := Find(v, '/');
      if i == |v| || '/' in v[i + 1..] then Err("repository must be in owner/name form")
      else
        match NormalizeLogin(v[..i])
        case Err(message) => Err("repository owner: " + message)
        case Ok(owner) =>
          var name := TrimGo(v[i + 1..]);
          if !IsRepoName(name) then Err("invalid repository name") else Ok(owner + "/" + name)
  }

  function NormalizeCommit(value: string): Result<string> {
    var v := TrimGo(value);
    if v == "" then Err("commit sha is required")
    else if !IsCommit(v) then Err("invalid commit sha")
    else Ok(Lower(v))
  }

  function NormalizeUUID(value: string): Result<string> {
    var v := TrimGo(value);
    if v == "" then Err("user_id is required")
    else if !IsUUID(v) then Err("user_id must be a canonical UUID")
    else Ok(Lower(v))
  }

  /** What is left after all leading at-signs. */
  function AfterAts(s: string): (r: string)
    ensures r == "" || r[0] != '@'
    ensures |r| <= |s| && r == s[|s| - |r|..] && forall i :: 0 <= i < |s| - |r| ==> s[i] == '@'
  {
    if s != "" && s[0] == '@' then AfterAts(s[1..]) else s
  }

  function NormalizeOptionalUser(value: string): Result<string> {
    var v := TrimGo(value);
    if v == "" then Ok("")
    else
      var bare := AfterAts(v);
      if bare == "" then Err("GitHub login is required")
      else
        match NormalizeLogin(bare)
        case Err(message) => Err(message)
        case Ok(login) => Ok(Lower(login))
  }

  method NormalizeOptionalSyncUser(value: string) returns (r: Result<string>)
    ensures r == NormalizeOptionalUser(value)
  {
    var trimmed := TrimGo(value);
    if trimmed == "" {
      return Ok("");
    }
    while trimmed != "" && trimmed[0] == '@'
      invariant AfterAts(trimmed) == AfterAts(TrimGo(value))
      decreases |trimmed|
    {
      trimmed := trimmed[1..];
    }
    if trimmed == "" {
      return Err("GitHub login is required");
    }
    var login := NormalizeLogin(trimmed);
    if login.Err? {
      return login;
    }
    return Ok(Lower(login.value));
  }

  // ----- Modes -----

  /** The modes, grouped by what their requests must carry. */
  datatype Kind = Installation | User | Repository | Numbered | Grade | Commit | PerUser | Global | Unsupported

  predicate NumberedMode(mode: string) {
    mode == "pull_request" || mode == "review" || mode == "issue" ||
    mode == "analysis_pull_request" || mode == "report_materialize_pull_request"
  }

  predicate PerUserMode(mode: string) {
    mode == "score_replay" || mode == "profile_refresh" || mode == "report_backfill_user_pull_requests" ||
    mode == "backfill_user_history" || mode == "quest_backfill_user" ||
    mode == "score_history_backfill_user" || mode == "badge_backfill_user"
  }

  predicate GlobalMode(mode: string) {
    mode == "leaderboard_materialize_season" || mode == "leaderboard_backfill_history"
  }

  function KindOf(mode: string): Kind {
    if mode == "installation" then Installation
    else if mode == "user" then User
    else if mode == "repository" then Repository
    else if NumberedMode(mode) then Numbered
    else if mode == "grade_pull_request" then Grade
    else if mode == "commit" then Commit
    else if PerUserMode(mode) then PerUser
    else if GlobalMode(mode) then Global
    else Unsupported
  }

  // ----- The whole request -----

  /** The first step of `Normalize`, which survives a later error. */
  function Tidy(r: Request): Request {
    r.(mode := Lower(TrimGo(r.mode)), user := TrimGo(r.user), userID := TrimGo(r.userID),
       repository := TrimGo(r.repository), sha := TrimGo(r.sha))
  }

  function WithUser(r: Request, repository: string, sha: string): Result<Request> {
    match NormalizeOptionalUser(r.user)
    case Err(message) => Err("user: " + message)
    case Ok(user) => Ok(r.(repository := repository, sha := sha, user := user))
  }

  function WithUserID(r: Request, repository: string): Result<Request> {
    match NormalizeUUID(r.userID)
    case Err(message) => Err(message)
    case Ok(userID) => Ok(r.(repository := repository, userID := userID))
  }

  function NormalizeTidy(r: Request): Result<Request> {
    match KindOf(r.mode)
    case Installation =>
      if r.installationID <= 0 then Err("installation_id is required when mode=installation") else Ok(r)
    case User =>
      (match NormalizeLogin(r.user)
       case Err(message) => Err("user: " + message)
       case Ok(user) => Ok(r.(user := user)))
    case PerUser => WithUserID(r, r.repository)
    case Global => Ok(r)
    case Unsupported => Err("unsupported sync mode")
    case _ =>
      match NormalizeRepository(r.repository)
      case Err(message) => Err(message)
      case Ok(repository) => NormalizeAbout(r, repository)
  }

  /** The request is about something in a repository, already normalised. */
  function NormalizeAbout(r: Request, repository: string): Result<Request> {
    match KindOf(r.mode)
    case Commit =>
      (match NormalizeCommit(r.sha)
       case Err(message) => Err(message)
       case Ok(sha) => WithUser(r, repository, sha))
    case Numbered => if r.number <= 0 then Err("repository and number are required") else WithUser(r, repository, r.sha)
    case Grade => if r.number <= 0 then Err("repository and number are required") else WithUserID(r, repository)
    case _ => WithUser(r, repository, r.sha)
  }

  function Normalize(r: Request): Result<Request> { NormalizeTidy(Tidy(r)) }

  /** An optional user is empty, or a lower-case login. */
  predicate IsOptionalUser(s: string) { s == "" || (IsLogin(s) && Lower(s) == s) }

  /** What a successful normalisation establishes, kind by kind. */
  predicate Normalized(r: Request) {
    match KindOf(r.mode)
    case Installation => r.installationID > 0
    case User => IsLogin(r.user)
    case Repository => IsRepository(r.repository) && IsOptionalUser(r.user)
    case Numbered => IsRepository(r.repository) && r.number > 0 && IsOptionalUser(r.user)
    case Grade => IsRepository(r.repository) && r.number > 0 && IsUUID(r.userID) && Lower(r.userID) == r.userID
    case Commit => IsRepository(r.repository) && IsCommit(r.sha) && Lower(r.sha) == r.sha && IsOptionalUser(r.user)
    case PerUser => IsUUID(r.userID) && Lower(r.userID) == r.userID
    case Global => true
    case Unsupported => false
  }

  lemma LoginShape(value: string)
    ensures var r := NormalizeLogin(value); r.Ok? ==> IsLogin(r.value) && '/' !in r.value
  {
  }

  lemma SlashCut(owner: string, name: string)
    requires IsLogin(owner) && '/' !in owner && IsRepoName(name)
    ensures IsRepository(owner + "/" + name)
  {
    hide IsLogin, IsRepoName;
    var s := owner + "/" + name;
    assert s == owner + ['/'] + name;
    FindCut(owner, name, '/');
    assert s[..|owner|] == owner && s[|owner| + 1..] == name;
  }

  lemma RepositoryShape(value: string)
    ensures var r := NormalizeRepository(value); r.Ok? ==> IsRepository(r.value)
  {
    hide IsRepository, IsLogin, IsRepoName, HasAny, Contains, TrimGo, NormalizeLogin;
    var r := NormalizeRepository(value);
    if r.Ok? {
      var v := TrimGo(value);
      var i := Find(v, '/');
      LoginShape(v[..i]);
      SlashCut(NormalizeLogin(v[..i]).value, TrimGo(v[i + 1..]));
    }
  }

  lemma LowerKeepsShape(s: string)
    ensures IsCommit(s) ==> IsCommit(Lower(s))
    ensures IsUUID(s) ==> IsUUID(Lower(s))
    ensures IsLogin(s) ==> IsLogin(Lower(s))
  {
  }

  lemma OptionalUserShape(value: string)
    ensures var r := NormalizeOptionalUser(value); r.Ok? ==> IsOptionalUser(r.value)
  {
    hide IsLogin, TrimGo;
    var bare := AfterAts(TrimGo(value));
    LowerKeepsShape(TrimGo(bare));
    LowerIdempotent(TrimGo(bare));
  }

  lemma NormalizeEstablishes(r: Request)
    ensures Normalize(r).Ok? ==> Normalized(Normalize(r).value)
  {
    hide KindOf, NormalizeRepository, IsRepository, TrimGo, IsUUID, IsCommit, IsLogin, IsOptionalUser, Lower, NormalizeOptionalUser;
    var t := Tidy(r);
    OptionalUserShape(t.user);
    RepositoryShape(t.repository);
    LoginShape(t.user);
    LowerKeepsShape(TrimGo(t.sha));
    LowerIdempotent(TrimGo(t.sha));
    LowerKeepsShape(TrimGo(t.userID));
    LowerIdempotent(TrimGo(t.userID));
  }

  // ----- What is accepted -----

  /** A login as its pattern says: one letter or digit, or two of them around up to 37 letters,
      digits and hyphens. */
  lemma LoginPattern(s: string)
    ensures IsLogin(s) <==>
              || (|s| == 1 && IsAlnum(s[0]))
              || (|s| >= 2 && IsAlnum(s[0]) && IsAlnum(s[|s| - 1]) && |s| - 2 <= 37
                  && forall c :: c in s[1..|s| - 1] ==> IsAlnum(c) || c == '-')
  {
    if |s| >= 2 {
      var mid := s[1..|s| - 1];
      assert s == [s[0]] + mid + [s[|s| - 1]];
      assert forall k :: 0 < k < |s| - 1 ==> s[k] == mid[k - 1];
    }
  }

  /** The other two patterns. */
  lemma NamePatterns(s: string)
    ensures IsCommit(s) <==> 6 <= |s| <= 64 && forall c :: c in s ==> '0' <= c <= '9' || 'a' <= c <= 'f' || 'A' <= c <= 'F'
    ensures IsRepoName(s) <==>
              && 1 <= |s| <= 100 && s != "." && s != ".."
              && forall c :: c in s ==> 'a' <= c <= 'z' || 'A' <= c <= 'Z' || '0' <= c <= '9' || c == '.' || c == '_' || c == '-'
  {
    assert forall i :: 0 <= i < |s| ==> s[i] in s;
  }

  predicate HexDigits(s: string, n: nat) { |s| == n && forall c :: c in s ==> IsHex(c) }

  /** A UUID is five groups of hexadecimal digits with hyphens in between. */
  lemma UUIDPattern(s: string)
    ensures IsUUID(s) <==>
              && |s| == 36 && HexDigits(s[..8], 8) && s[8] == '-' && HexDigits(s[9..13], 4) && s[13] == '-'
              && HexDigits(s[14..18], 4) && s[18] == '-' && HexDigits(s[19..23], 4) && s[23] == '-' && HexDigits(s[24..], 12)
  {
    if |s| == 36 {
      forall i | 0 <= i < 36
        ensures i < 8 ==> s[i] == s[..8][i]
        ensures 9 <= i < 13 ==> s[i] == s[9..13][i - 9]
        ensures 14 <= i < 18 ==> s[i] == s[14..18][i - 14]
        ensures 19 <= i < 23 ==> s[i] == s[19..23][i - 19]
        ensures 24 <= i ==> s[i] == s[24..][i - 24]
      {
      }
    }
  }

  /** An owner and a name around one slash, each perhaps with white space around it. */
  predicate NamesRepository(v: string, owner: string, name: string) {
    v == owner + "/" + name && '/' !in owner && '/' !in name && IsLogin(TrimGo(owner)) && IsRepoName(TrimGo(name))
  }

  /** The characters of a text are white space or those of its trimmed form. */
  lemma CharsOfTrimmed(s: string)
    ensures forall c :: c in s ==> IsGoSpace(c) || c in TrimGo(s)
  {
    hide TrimLeft, TrimRight;
    var left, right := TrimCuts(s, IsGoSpace);
  }

  lemma NoMarks(v: string, owner: string, name: string)
    requires NamesRepository(v, owner, name)
    ensures !HasAny(v, "\\?#@") && !Contains(v, "://") && v != "" && TrimGo(owner) != ""
  {
    hide TrimGo, Contains;
    CharsOfTrimmed(owner);
    CharsOfTrimmed(name);
    forall c | c in v
      ensures IsGoSpace(c) || IsRepoChar(c) || c == '/'
    {
      assert c in owner || c == '/' || c in name;
    }
    assert ':' !in v;
    forall k | 0 <= k < |v|
      ensures v[k] !in "\\?#@"
    {
      assert v[k] in v;
    }
    if Contains(v, "://") {
      ContainsFirst(v, "://");
    }
  }

  /** A repository is accepted exactly when it names one, and becomes owner, slash, name. */
  lemma RepositoryAccepted(value: string, owner: string, name: string)
    ensures NamesRepository(TrimGo(value), owner, name) ==> NormalizeRepository(value) == Ok(TrimGo(owner) + "/" + TrimGo(name))
  {
    hide TrimGo, Contains, HasAny, IsLogin, IsRepoName;
    if NamesRepository(TrimGo(value), owner, name) {
      var v := TrimGo(value);
      NoMarks(v, owner, name);
      FindCut(owner, name, '/');
      assert v[..|owner|] == owner && v[|owner| + 1..] == name;
    }
  }

  lemma RepositoryRefused(value: string) returns (owner: string, name: string)
    requires NormalizeRepository(value).Ok?
    ensures NamesRepository(TrimGo(value), owner, name)
  {
    hide TrimGo, Contains, HasAny, IsLogin, IsRepoName;
    var v := TrimGo(value);
    var i := Find(v, '/');
    owner, name := v[..i], v[i + 1..];
    assert v == owner + "/" + name;
  }

  /** An optional user is accepted exactly when it is blank or, after its at-signs, a login; it
      becomes that login in lower case. */
  lemma OptionalUserAccepted(value: string, ats: string, rest: string)
    requires TrimGo(value) == ats + rest && (forall c :: c in ats ==> c == '@') && (rest == "" || rest[0] != '@')
    ensures NormalizeOptionalUser(value).Ok? <==> TrimGo(value) == "" || IsLogin(TrimGo(rest))
    ensures TrimGo(value) == "" ==> NormalizeOptionalUser(value) == Ok("")
    ensures TrimGo(value) != "" && IsLogin(TrimGo(rest)) ==> NormalizeOptionalUser(value) == Ok(Lower(TrimGo(rest)))
  {
    hide IsLogin, TrimLeft, TrimRight;
    AfterTheAts(ats, rest);
    if rest == "" {
      TrimBlank(rest, IsGoSpace);
      EmptyIsNoLogin();
    }
    if IsLogin(TrimGo(rest)) {
      EmptyIsNoLogin();
    }
  }

  lemma EmptyIsNoLogin()
    ensures !IsLogin("")
  {
  }

  lemma {:induction false} AfterTheAts(ats: string, rest: string)
    requires (forall c :: c in ats ==> c == '@') && (rest == "" || rest[0] != '@')
    ensures AfterAts(ats + rest) == rest
  {
    if ats != "" {
      assert ats[0] in ats && (ats + rest)[1..] == ats[1..] + rest;
      assert forall c :: c in ats[1..] ==> c in ats;
      AfterTheAts(ats[1..], rest);
    } else {
      assert ats + rest == rest;
    }
  }

  lemma NumberedNames(mode: string)
    ensures KindOf(mode) == Numbered <==> mode in {"pull_request", "review", "issue", "analysis_pull_request", "report_materialize_pull_request"}
  {
    hide PerUserMode, GlobalMode;
  }

  lemma PerUserModeNames(mode: string)
    ensures PerUserMode(mode) <==>
              mode in {"score_replay", "profile_refresh", "report_backfill_user_pull_requests", "backfill_user_history",
                       "quest_backfill_user", "score_history_backfill_user", "badge_backfill_user"}
  {
  }

  lemma PerUserNames(mode: string)
    ensures KindOf(mode) == PerUser <==> PerUserMode(mode)
  {
    hide GlobalMode;
  }

  lemma GlobalNames(mode: string)
    ensures KindOf(mode) == Global <==> mode in {"leaderboard_materialize_season", "leaderboard_backfill_history"}
  {
  }

  /** The modes, kind by kind. */
  lemma KindNames(mode: string)
    ensures KindOf(mode) == Installation <==> mode == "installation"
    ensures KindOf(mode) == User <==> mode == "user"
    ensures KindOf(mode) == Repository <==> mode == "repository"
    ensures KindOf(mode) == Commit <==> mode == "commit"
    ensures KindOf(mode) == Grade <==> mode == "grade_pull_request"
    ensures KindOf(mode) == Numbered <==> mode in {"pull_request", "review", "issue", "analysis_pull_request", "report_materialize_pull_request"}
    ensures KindOf(mode) == PerUser <==>
              mode in {"score_replay", "profile_refresh", "report_backfill_user_pull_requests", "backfill_user_history",
                       "quest_backfill_user", "score_history_backfill_user", "badge_backfill_user"}
    ensures KindOf(mode) == Global <==> mode in {"leaderboard_materialize_season", "leaderboard_backfill_history"}
  {
    SingleNames(mode);
    NumberedNames(mode);
    PerUserNames(mode);
    PerUserModeNames(mode);
    GlobalNames(mode);
    hide KindOf, PerUserMode;
  }

  lemma SingleNames(mode: string)
    ensures KindOf(mode) == Installation <==> mode == "installation"
    ensures KindOf(mode) == User <==> mode == "user"
    ensures KindOf(mode) == Repository <==> mode == "repository"
    ensures KindOf(mode) == Commit <==> mode == "commit"
    ensures KindOf(mode) == Grade <==> mode == "grade_pull_request"
  {
    assert !NumberedMode("commit") && !NumberedMode("grade_pull_request");
    hide NumberedMode, PerUserMode, GlobalMode;
  }

  /** Which requests are accepted, kind by kind, and what becomes of them: every text trimmed, the
      mode in lower case, and what the kind is about in its normal form. */
  lemma AcceptedExactly(r: Request)
    ensures var mode, user, userID := Lower(TrimGo(r.mode)), TrimGo(r.user), TrimGo(r.userID);
            var repository, sha := NormalizeRepository(TrimGo(r.repository)), TrimGo(r.sha);
            var optional := NormalizeOptionalUser(user);
            var t := Request(user, userID, TrimGo(r.repository), mode, r.installationID, r.number, sha);
            var n := Normalize(r);
            match KindOf(mode)
            case Installation => if r.installationID > 0 then n == Ok(t) else n.Err?
            case User => if IsLogin(user) then n == Ok(t) else n.Err?
            case Repository =>
              if repository.Ok? && optional.Ok? then n == Ok(t.(repository := repository.value, user := optional.value)) else n.Err?
            case Numbered =>
              if repository.Ok? && r.number > 0 && optional.Ok? then n == Ok(t.(repository := repository.value, user := optional.value)) else n.Err?
            case Grade =>
              if repository.Ok? && r.number > 0 && IsUUID(userID) then n == Ok(t.(repository := repository.value, userID := Lower(userID))) else n.Err?
            case Commit =>
              if repository.Ok? && IsCommit(sha) && optional.Ok?
              then n == Ok(t.(repository := repository.value, sha := Lower(sha), user := optional.value)) else n.Err?
            case PerUser => if IsUUID(userID) then n == Ok(t.(userID := Lower(userID))) else n.Err?
            case Global => n == Ok(t)
            case Unsupported => n.Err?
  {
    hide KindOf, TrimGo, Lower, IsLogin, IsUUID, IsCommit, NormalizeRepository, NormalizeOptionalUser,
         NormalizeLogin, NormalizeCommit, NormalizeUUID;
    TrimAgain(r.user);
    TrimAgain(r.userID);
    TrimAgain(r.sha);
    LoginAccepted(TrimGo(r.user));
    CommitAccepted(TrimGo(r.sha));
    UUIDAccepted(TrimGo(r.userID));
  }

  lemma LoginAccepted(value: string)
    ensures NormalizeLogin(value).Ok? <==> IsLogin(TrimGo(value))
    ensures NormalizeLogin(value).Ok? ==> NormalizeLogin(value).value == TrimGo(value)
  {
    hide TrimGo;
  }

  lemma CommitAccepted(value: string)
    ensures NormalizeCommit(value).Ok? <==> IsCommit(TrimGo(value))
    ensures NormalizeCommit(value).Ok? ==> NormalizeCommit(value).value == Lower(TrimGo(value))
  {
    hide TrimGo, Lower;
  }

  lemma UUIDAccepted(value: string)
    ensures NormalizeUUID(value).Ok? <==> IsUUID(TrimGo(value))
    ensures NormalizeUUID(value).Ok? ==> NormalizeUUID(value).value == Lower(TrimGo(value))
  {
    hide TrimGo, Lower;
  }

  // ----- Normalising again -----

  predicate PlainEnds(s: string) { s == "" || (IsPlain(s[0]) && IsPlain(s[|s| - 1])) }

  lemma PlainIsTrimmed(s: string)
    requires PlainEnds(s)
    ensures TrimGo(s) == s
  {
    hide TrimLeft, TrimRight;
    assert Trimmed(s, IsGoSpace);
  }

  lemma TrimAgain(s: string)
    ensures TrimGo(TrimGo(s)) == TrimGo(s)
  {
    hide TrimLeft, TrimRight;
  }

  lemma LowerTrimmed(s: string)
    requires TrimGo(s) == s
    ensures TrimGo(Lower(s)) == Lower(s)
  {
    hide TrimLeft, TrimRight;
    assert Trimmed(s, IsGoSpace);
    assert Trimmed(Lower(s), IsGoSpace);
  }

  lemma LoginAgain(s: string)
    requires IsLogin(s)
    ensures TrimGo(s) == s && NormalizeLogin(s) == Ok(s)
  {
    hide TrimGo;
    PlainIsTrimmed(s);
  }

  lemma CommitAgain(s: string)
    requires IsCommit(s) && Lower(s) == s
    ensures TrimGo(s) == s && NormalizeCommit(s) == Ok(s)
  {
    hide TrimGo;
    PlainIsTrimmed(s);
  }

  lemma UUIDAgain(s: string)
    requires IsUUID(s) && Lower(s) == s
    ensures TrimGo(s) == s && NormalizeUUID(s) == Ok(s)
  {
    hide TrimGo;
    PlainIsTrimmed(s);
  }

  lemma OptionalUserAgain(s: string)
    requires IsOptionalUser(s)
    ensures TrimGo(s) == s && NormalizeOptionalUser(s) == Ok(s)
  {
    hide TrimGo;
    if s == "" {
      PlainIsTrimmed(s);
    } else {
      LoginAgain(s);
      assert AfterAts(s) == s;
    }
  }

  lemma RepositoryAgain(s: string)
    requires IsRepository(s)
    ensures TrimGo(s) == s && NormalizeRepository(s) == Ok(s)
  {
    hide TrimGo;
    var i := Find(s, '/');
    var owner, name := s[..i], s[i + 1..];
    assert s == owner + "/" + name;
    LoginAgain(owner);
    PlainIsTrimmed(name);
    assert s[0] == owner[0] && s[|s| - 1] == name[|name| - 1];
    PlainIsTrimmed(s);
    RepositoryHasNoMarks(s);
  }

  lemma ContainsFirst(s: string, part: string)
    requires part != "" && Contains(s, part)
    ensures part[0] in s
  {
    var i :| 0 <= i <= |s| && PartAt(s, part, i);
    assert s[i..i + |part|][0] == s[i];
  }

  lemma RepositoryHasNoMarks(s: string)
    requires IsRepository(s)
    ensures !HasAny(s, "\\?#@") && !Contains(s, "://") && '/' !in s[Find(s, '/') + 1..]
  {
    hide Contains;
    var i := Find(s, '/');
    forall k | 0 <= k < |s|
      ensures IsRepoChar(s[k]) || s[k] == '/'
    {
      if k < i {
        assert s[..i][k] == s[k];
      } else if k > i {
        assert s[i + 1..][k - i - 1] == s[k];
      }
    }
    assert ':' !in s;
    if Contains(s, "://") {
      ContainsFirst(s, "://");
    }
  }

  lemma TidyAgain(r: Request)
    ensures Tidy(Tidy(r)) == Tidy(r)
  {
    hide TrimGo, Lower;
    TrimAgain(r.mode);
    LowerTrimmed(TrimGo(r.mode));
    LowerIdempotent(TrimGo(r.mode));
    TrimAgain(r.user);
    TrimAgain(r.userID);
    TrimAgain(r.repository);
    TrimAgain(r.sha);
  }

  /** A normalised request normalises to itself. */
  lemma NormalizeTwice(r: Request)
    requires Normalize(r).Ok?
    ensures Normalize(Normalize(r).value) == Normalize(r)
  {
    hide TrimGo, Lower, KindOf, IsRepository, IsLogin, IsUUID, IsCommit, IsOptionalUser,
         NormalizeLogin, NormalizeRepository, NormalizeCommit, NormalizeUUID, NormalizeOptionalUser;
    var t, n := Tidy(r), Normalize(r).value;
    TidyAgain(r);
    NormalizeEstablishes(r);
    match KindOf(t.mode) {
      case Installation =>
      case User => LoginAgain(n.user);
      case Repository =>
        RepositoryAgain(n.repository);
        OptionalUserAgain(n.user);
      case Numbered =>
        RepositoryAgain(n.repository);
        OptionalUserAgain(n.user);
      case Grade =>
        RepositoryAgain(n.repository);
        UUIDAgain(n.userID);
      case Commit =>
        RepositoryAgain(n.repository);
        CommitAgain(n.sha);
        OptionalUserAgain(n.user);
      case PerUser => UUIDAgain(n.userID);
      case Global =>
    }
  }

  /** The request object, overwritten in place by its own `Normalize`. */
  class SyncRequest {
    var user: string
    var userID: string
    var repository: string
    var mode: string
    var installationID: int
    var number: int
    var sha: string

    ghost function Value(): Request
      reads this
    {
      Request(user, userID, repository, mode, installationID, number, sha)
    }

    constructor (r: Request)
      ensures Value() == r
    {
      user, userID, repository, mode := r.user, r.userID, r.repository, r.mode;
      installationID, number, sha := r.installationID, r.number, r.sha;
    }

    /** `failure` is the returned error. On an error the fields are left trimmed. */
    method NormalizeInPlace() returns (failure: Option<string>)
      modifies this
      ensures match Normalize(old(Value()))
              case Ok(r) => failure == None && Value() == r
              case Err(message) => failure == Some(message) && Value() == Tidy(old(Value()))
    {
      hide KindOf, TrimGo, Lower, NormalizeLogin, NormalizeRepository, NormalizeCommit, NormalizeUUID, NormalizeOptionalUser;
      mode := Lower(TrimGo(mode));
      user := TrimGo(user);
      userID := TrimGo(userID);
      repository := TrimGo(repository);
      sha := TrimGo(sha);

      match KindOf(mode) {
        case Installation =>
          if installationID <= 0 {
            return Some("installation_id is required when mode=installation");
          }
        case User =>
          var login := NormalizeLogin(user);
          if login.Err? {
            return Some("user: " + login.message);
          }
          user := login.value;
        case Repository =>
          var repo := NormalizeRepository(repository);
          if repo.Err? {
            return Some(repo.message);
          }
          var optional := NormalizeOptionalSyncUser(user);
          if optional.Err? {
            return Some("user: " + optional.message);
          }
          repository, user := repo.value, optional.value;
        case Numbered =>
          var repo := NormalizeRepository(repository);
          if repo.Err? {
            return Some(repo.message);
          }
          if number <= 0 {
            return Some("repository and number are required");
          }
          var optional := NormalizeOptionalSyncUser(user);
          if optional.Err? {
            return Some("user: " + optional.message);
          }
          repository, user := repo.value, optional.value;
        case Grade =>
          var repo := NormalizeRepository(repository);
          if repo.Err? {
            return Some(repo.message);
          }
          if number <= 0 {
            return Some("repository and number are required");
          }
          var id := NormalizeUUID(userID);
          if id.Err? {
            return Some(id.message);
          }
          repository, userID := repo.value, id.value;
        case Commit =>
          var repo := NormalizeRepository(repository);
          if repo.Err? {
            return Some(repo.message);
          }
          var commit := NormalizeCommit(sha);
          if commit.Err? {
            return Some(commit.message);
          }
          var optional := NormalizeOptionalSyncUser(user);
          if optional.Err? {
            return Some("user: " + optional.message);
          }
          repository, sha, user := repo.value, commit.value, optional.value;
        case PerUser =>
          var id := NormalizeUUID(userID);
          if id.Err? {
            return Some(id.message);
          }
          userID := id.value;
        case Global =>
        case Unsupported =>
          return Some("unsupported sync mode");
      }
      return None;
    }
  }
}
