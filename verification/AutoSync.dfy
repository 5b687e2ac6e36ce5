/** The dashboard's automatic profile sync: how often it can ask for a sync, over any number
    of mounts of the dashboard in one browser tab. */
module AutoSync {
  import opened Common
  import opened Text
  import opened Arithmetic

  datatype Policy = Policy(
    bootstrapEnabled: bool,
    staleAge: int,
    retryInterval: int,
    cooldown: int,
    maxAttempts: int,
    recoveryCooldown: int)

  /** What the tab remembers in session storage: per user the time of the last attempt, and
      the bootstraps already made. */
  datatype Session = Session(lastAt: map<string, int>, bootstrapped: set<string>)

  /** What one mount of the dashboard remembers. */
  datatype Refs = Refs(lastAttempt: int, attempts: nat, observed: Option<string>)

  /** What one run of the effect sees. */
  datatype Look = Look(
    username: string,
    fingerprint: string,
    state: string,
    lastSynced: Option<int>,
    pending: bool,
    now: int)

  datatype Kind = Bootstrap | Plain

  // ----- What one run of the effect does -----

  function UserKey(l: Look): string { LowerJs(l.username) }

  function BootstrapKey(l: Look): string { UserKey(l) + ":" + l.fingerprint }

  predicate Bootstraps(p: Policy, s: Session, l: Look) {
    p.bootstrapEnabled && BootstrapKey(l) !in s.bootstrapped
  }

  predicate Stale(p: Policy, l: Look) {
    l.state != "synced" || l.lastSynced.None? || l.now - l.lastSynced.value >= p.staleAge
  }

  predicate Wanted(p: Policy, s: Session, l: Look) {
    (Bootstraps(p, s, l) || Stale(p, l)) && l.state != "syncing" && !l.pending
  }

  predicate Exhausted(p: Policy, r: Refs) { r.attempts >= p.maxAttempts }

  predicate Recovered(p: Policy, r: Refs, l: Look) { l.now - r.lastAttempt >= p.recoveryCooldown }

  predicate SessionAllows(p: Policy, s: Session, l: Look) {
    l.now - (if UserKey(l) in s.lastAt then s.lastAt[UserKey(l)] else 0) >= p.cooldown
  }

  function Observed(r: Refs, l: Look): Refs {
    if r.observed == Some(l.state) then r else r.(observed := Some(l.state), attempts := 0)
  }

  predicate Requests(p: Policy, s: Session, r: Refs, l: Look) {
    && Wanted(p, s, l)
    && (Exhausted(p, Observed(r, l)) ==> Recovered(p, r, l))
    && l.now - r.lastAttempt >= p.retryInterval
    && (Bootstraps(p, s, l) || SessionAllows(p, s, l))
  }

  function RefsAfter(p: Policy, s: Session, r: Refs, l: Look): Refs {
    var seen := Observed(r, l);
    var reset := if Wanted(p, s, l) && Exhausted(p, seen) && Recovered(p, r, l) then seen.(attempts := 0) else seen;
    if Requests(p, s, r, l) then reset.(lastAttempt := l.now, attempts := reset.attempts + 1) else reset
  }

  function SessionAfter(p: Policy, s: Session, r: Refs, l: Look): Session {
    if !Requests(p, s, r, l) then s
    else Session(s.lastAt[UserKey(l) := l.now], if Bootstraps(p, s, l) then s.bootstrapped + {BootstrapKey(l)} else s.bootstrapped)
  }

  function KindOf(p: Policy, s: Session, l: Look): Kind {
    if Bootstraps(p, s, l) then Bootstrap else Plain
  }

  function Succeeded(r: Refs, now: int): Refs { r.(lastAttempt := now, attempts := 0) }

  function SessionFailed(p: Policy, s: Session, r: Refs, user: string, now: int): Session {
    if Exhausted(p, r) then s.(lastAt := s.lastAt[user := now]) else s
  }

  // ----- The coordinator -----

  class SessionStorage {
    var lastAt: map<string, int>
    var bootstrapped: set<string>

    constructor ()
      ensures Model() == Session(map[], {})
    {
      lastAt, bootstrapped := map[], {};
    }

    function Model(): Session reads this { Session(lastAt, bootstrapped) }
  }

  class DashboardAutoSyncCoordinator {
    const policy: Policy
    const session: SessionStorage
    var lastAttempt: int
    var attempts: nat
    var observed: Option<string>

    constructor (policy: Policy, session: SessionStorage)
      ensures this.policy == policy && this.session == session && Model() == Refs(0, 0, None)
    {
      this.policy, this.session := policy, session;
      lastAttempt, attempts, observed := 0, 0, None;
    }

    function Model(): Refs reads this { Refs(lastAttempt, attempts, observed) }

    method Effect(look: Look) returns (request: Option<Kind>)
      modifies this, session
      ensures session.Model() == SessionAfter(policy, old(session.Model()), old(Model()), look)
      ensures Model() == RefsAfter(policy, old(session.Model()), old(Model()), look)
      ensures request == if Requests(policy, old(session.Model()), old(Model()), look)
                         then Some(KindOf(policy, old(session.Model()), look)) else None
    {
      hide UserKey, BootstrapKey;
      if observed != Some(look.state) {
        observed := Some(look.state);
        attempts := 0;
      }
      var staleByAge := look.lastSynced.None? || look.now - look.lastSynced.value >= policy.staleAge;
      var user := UserKey(look);
      var bootstrapKey := BootstrapKey(look);
      var bootstrap := policy.bootstrapEnabled && bootstrapKey !in session.bootstrapped;
      if !(bootstrap || look.state != "synced" || staleByAge) || look.state == "syncing" || look.pending {
        return None;
      }
      if attempts >= policy.maxAttempts {
        if look.now - lastAttempt >= policy.recoveryCooldown {
          attempts := 0;
        } else {
          return None;
        }
      }
      if look.now - lastAttempt < policy.retryInterval {
        return None;
      }
      if !bootstrap {
        var last := if user in session.lastAt then session.lastAt[user] else 0;
        if look.now - last < policy.cooldown {
          return None;
        }
      }
      session.lastAt := session.lastAt[user := look.now];
      if bootstrap {
        session.bootstrapped := session.bootstrapped + {bootstrapKey};
      }
      lastAttempt := look.now;
      attempts := attempts + 1;
      return Some(if bootstrap then Bootstrap else Plain);
    }

    method OnSuccess(now: int)
      modifies this
      ensures Model() == Succeeded(old(Model()), now)
    {
      lastAttempt := now;
      attempts := 0;
    }

    method OnError(user: string, now: int)
      modifies session
      ensures session.Model() == SessionFailed(policy, old(session.Model()), Model(), user, now)
    {
      if policy.maxAttempts - attempts <= 0 {
        session.lastAt := session.lastAt[user := now];
      }
    }
  }

  // ----- Runs of a tab -----

  /** Mounts come and go, and the answers to requests arrive whenever they like. */
  datatype Event =
    | Mounted(mount: int, now: int)
    | Looked(mount: int, look: Look)
    | Answered(mount: int, now: int)
    | Refused(mount: int, user: string, now: int)
  {
    function Time(): int { if Looked? then look.now else now }
  }

  datatype Tab = Tab(session: Session, mounts: map<int, Refs>)

  ghost predicate Step(p: Policy, t: Tab, e: Event, u: Tab) {
    match e
    case Mounted(m, _) => m !in t.mounts && u == t.(mounts := t.mounts[m := Refs(0, 0, None)])
    case Looked(m, look) =>
      m in t.mounts &&
      u == Tab(SessionAfter(p, t.session, t.mounts[m], look), t.mounts[m := RefsAfter(p, t.session, t.mounts[m], look)])
    case Answered(m, now) => m in t.mounts && u == t.(mounts := t.mounts[m := Succeeded(t.mounts[m], now)])
    case Refused(m, user, now) => m in t.mounts && u == t.(session := SessionFailed(p, t.session, t.mounts[m], user, now))
  }

  datatype Trace = Trace(policy: Policy, tabs: seq<Tab>, events: seq<Event>)

  /** The tab may start with anything in its session storage; its clock does not go back. */
  ghost predicate Valid(t: Trace) {
    && |t.tabs| == |t.events| + 1
    && (forall i :: 0 <= i < |t.events| ==> Step(t.policy, t.tabs[i], t.events[i], t.tabs[i + 1]))
    && (forall i, j :: 0 <= i < j < |t.events| ==> t.events[i].Time() <= t.events[j].Time())
  }

  ghost predicate RequestAt(t: Trace, i: nat, user: string)
    requires Valid(t) && i < |t.events|
  {
    && t.events[i].Looked?
    && t.events[i].mount in t.tabs[i].mounts
    && UserKey(t.events[i].look) == user
    && Requests(t.policy, t.tabs[i].session, t.tabs[i].mounts[t.events[i].mount], t.events[i].look)
  }

  ghost predicate BootstrapAt(t: Trace, i: nat, user: string)
    requires Valid(t) && i < |t.events|
  {
    RequestAt(t, i, user) && Bootstraps(t.policy, t.tabs[i].session, t.events[i].look)
  }

  ghost predicate PlainAt(t: Trace, i: nat, user: string)
    requires Valid(t) && i < |t.events|
  {
    RequestAt(t, i, user) && !Bootstraps(t.policy, t.tabs[i].session, t.events[i].look)
  }

  // ----- Spacing -----

  predicate Remembers(s: Session, user: string, time: int) {
    user in s.lastAt && s.lastAt[user] >= time
  }

  /** Once a request was made, the session remembers an attempt at least as late. */
  lemma {:induction false} RequestIsRemembered(t: Trace, i: nat, j: nat, user: string)
    requires Valid(t) && i < j <= |t.events| && RequestAt(t, i, user)
    ensures Remembers(t.tabs[j].session, user, t.events[i].Time())
  {
    hide UserKey, Requests, RefsAfter, Bootstraps;
    assert Step(t.policy, t.tabs[j - 1], t.events[j - 1], t.tabs[j]);
    if j > i + 1 {
      RequestIsRemembered(t, i, j - 1, user);
      assert t.events[i].Time() <= t.events[j - 1].Time();
    }
  }

  /** A plain request comes at least one cooldown after every earlier request of the user,
      from whatever mount. */
  lemma PlainIsSpaced(t: Trace, i: nat, j: nat, user: string)
    requires Valid(t) && i < j < |t.events| && RequestAt(t, i, user) && PlainAt(t, j, user)
    ensures t.events[j].Time() - t.events[i].Time() >= t.policy.cooldown
  {
    RequestIsRemembered(t, i, j, user);
  }

  lemma {:induction false} BootstrapIsRemembered(t: Trace, i: nat, j: nat, user: string)
    requires Valid(t) && i < j <= |t.events| && BootstrapAt(t, i, user)
    ensures BootstrapKey(t.events[i].look) in t.tabs[j].session.bootstrapped
  {
    hide UserKey, BootstrapKey, RefsAfter;
    assert Step(t.policy, t.tabs[j - 1], t.events[j - 1], t.tabs[j]);
    if j > i + 1 {
      BootstrapIsRemembered(t, i, j - 1, user);
    }
  }

  /** A session fingerprint bootstraps a user once. */
  lemma BootstrapOnce(t: Trace, i: nat, j: nat, user: string)
    requires Valid(t) && i < j < |t.events| && BootstrapAt(t, i, user) && BootstrapAt(t, j, user)
    ensures t.events[i].look.fingerprint != t.events[j].look.fingerprint
  {
    BootstrapIsRemembered(t, i, j, user);
  }

  predicate TriedAt(refs: Refs, time: int) { refs.lastAttempt >= time }

  lemma {:induction false} MountRemembers(t: Trace, i: nat, j: nat, user: string)
    requires Valid(t) && i < j <= |t.events| && RequestAt(t, i, user)
    ensures t.events[i].mount in t.tabs[j].mounts && TriedAt(t.tabs[j].mounts[t.events[i].mount], t.events[i].Time())
  {
    hide UserKey, SessionAfter, Requests, Bootstraps, SessionFailed;
    assert Step(t.policy, t.tabs[j - 1], t.events[j - 1], t.tabs[j]);
    if j > i + 1 {
      MountRemembers(t, i, j - 1, user);
      assert t.events[i].Time() <= t.events[j - 1].Time();
    }
  }

  /** Two requests of one mount, bootstrap or not and for whichever users, are at least one
      retry interval apart. */
  lemma MountIsSpaced(t: Trace, i: nat, j: nat, user: string, other: string)
    requires Valid(t) && i < j < |t.events| && RequestAt(t, i, user) && RequestAt(t, j, other)
    requires t.events[i].mount == t.events[j].mount
    ensures t.events[j].Time() - t.events[i].Time() >= t.policy.retryInterval
  {
    MountRemembers(t, i, j, user);
  }

  // ----- The rate bound -----

  predicate Within(e: Event, from: int, to: int) { from <= e.Time() <= to }

  ghost function RequestsIn(t: Trace, user: string, from: int, to: int, n: nat): nat
    requires Valid(t) && n <= |t.events|
  {
    if n == 0 then 0
    else RequestsIn(t, user, from, to, n - 1) + if RequestAt(t, n - 1, user) && Within(t.events[n - 1], from, to) then 1 else 0
  }

  ghost function PlainIn(t: Trace, user: string, from: int, to: int, n: nat): nat
    requires Valid(t) && n <= |t.events|
  {
    if n == 0 then 0
    else PlainIn(t, user, from, to, n - 1) + if PlainAt(t, n - 1, user) && Within(t.events[n - 1], from, to) then 1 else 0
  }

  /** The session fingerprints that bootstrapped the user. */
  ghost function BootstrappedIn(t: Trace, user: string, from: int, to: int, n: nat): set<string>
    requires Valid(t) && n <= |t.events|
  {
    if n == 0 then {}
    else BootstrappedIn(t, user, from, to, n - 1) +
         if BootstrapAt(t, n - 1, user) && Within(t.events[n - 1], from, to) then {t.events[n - 1].look.fingerprint} else {}
  }

  lemma {:induction false} BootstrappedBy(t: Trace, user: string, from: int, to: int, n: nat, fingerprint: string) returns (i: nat)
    requires Valid(t) && n <= |t.events| && fingerprint in BootstrappedIn(t, user, from, to, n)
    ensures i < n && BootstrapAt(t, i, user) && t.events[i].look.fingerprint == fingerprint
  {
    hide Valid, BootstrapAt;
    if fingerprint in BootstrappedIn(t, user, from, to, n - 1) {
      i := BootstrappedBy(t, user, from, to, n - 1, fingerprint);
    } else {
      i := n - 1;
    }
  }

  lemma EitherKind(t: Trace, user: string, i: nat)
    requires Valid(t) && i < |t.events|
    ensures BootstrapAt(t, i, user) ==> t.events[i].Looked?
    ensures RequestAt(t, i, user) <==> BootstrapAt(t, i, user) || PlainAt(t, i, user)
    ensures !(BootstrapAt(t, i, user) && PlainAt(t, i, user))
  {
    hide Valid, Bootstraps;
  }

  /** Every request is a bootstrap, of which there is one for each fingerprint, or plain. */
  lemma {:induction false} RequestsSplit(t: Trace, user: string, from: int, to: int, n: nat)
    requires Valid(t) && n <= |t.events|
    ensures RequestsIn(t, user, from, to, n) == |BootstrappedIn(t, user, from, to, n)| + PlainIn(t, user, from, to, n)
  {
    hide Valid, RequestAt, BootstrapAt, PlainAt, Within;
    if n > 0 {
      RequestsSplit(t, user, from, to, n - 1);
      EitherKind(t, user, n - 1);
      if BootstrapAt(t, n - 1, user) {
        FirstBootstrap(t, user, from, to, n - 1);
      }
    }
  }

  lemma FirstBootstrap(t: Trace, user: string, from: int, to: int, n: nat)
    requires Valid(t) && n < |t.events| && BootstrapAt(t, n, user)
    ensures t.events[n].look.fingerprint !in BootstrappedIn(t, user, from, to, n)
  {
    var fingerprint := t.events[n].look.fingerprint;
    hide Valid, BootstrapAt;
    if fingerprint in BootstrappedIn(t, user, from, to, n) {
      var i := BootstrappedBy(t, user, from, to, n, fingerprint);
      BootstrapOnce(t, i, n, user);
    }
  }

  lemma {:induction false} NoneAfter(t: Trace, user: string, from: int, to: int, n: nat, last: int)
    requires Valid(t) && n <= |t.events|
    requires forall i :: 0 <= i < n && PlainAt(t, i, user) ==> t.events[i].Time() <= last
    ensures last <= to ==> PlainIn(t, user, from, to, n) == PlainIn(t, user, from, last, n)
    ensures last < from ==> PlainIn(t, user, from, to, n) == 0
  {
    hide Valid, PlainAt;
    if n > 0 {
      NoneAfter(t, user, from, to, n - 1, last);
    }
  }

  /** How many whole cooldowns fit between two times. */
  function Cooldowns(from: int, to: int, c: int): int
    requires c > 0
  {
    (to - from) / c
  }

  lemma {:induction false} PlainBound(t: Trace, user: string, from: int, to: int, n: nat)
    requires Valid(t) && n <= |t.events| && from <= to && t.policy.cooldown > 0
    ensures PlainIn(t, user, from, to, n) <= Cooldowns(from, to, t.policy.cooldown) + 1
    decreases n
  {
    hide Valid, PlainAt, Cooldowns;
    NonNegative(from, to, t.policy.cooldown);
    if n > 0 {
      if PlainAt(t, n - 1, user) && Within(t.events[n - 1], from, to) {
        var last := t.events[n - 1].Time() - t.policy.cooldown;
        EarlierPlain(t, user, n - 1);
        NoneAfter(t, user, from, to, n - 1, last);
        OneStepLess(from, last, to, t.policy.cooldown);
        if from <= last {
          PlainBound(t, user, from, last, n - 1);
        }
      } else {
        PlainBound(t, user, from, to, n - 1);
      }
    }
  }

  lemma EarlierPlain(t: Trace, user: string, n: nat)
    requires Valid(t) && n < |t.events| && PlainAt(t, n, user)
    ensures forall i :: 0 <= i < n && PlainAt(t, i, user) ==> t.events[i].Time() <= t.events[n].Time() - t.policy.cooldown
  {
    hide Valid;
    forall i | 0 <= i < n && PlainAt(t, i, user)
      ensures t.events[i].Time() <= t.events[n].Time() - t.policy.cooldown
    {
      PlainIsSpaced(t, i, n, user);
    }
  }

  lemma OneStepLess(from: int, last: int, to: int, c: int)
    requires c > 0 && last + c <= to
    ensures Cooldowns(from, last, c) + 1 <= Cooldowns(from, to, c)
  {
    var q := (last - from) / c;
    BelowNextMultiple(last - from, c);
    NextTimes(q, c);
    AtMostQuotient(q + 1, to - from, c);
  }

  lemma NonNegative(from: int, to: int, c: int)
    requires c > 0 && from <= to
    ensures Cooldowns(from, to, c) >= 0
  {
  }

  /** In any window of time the tab asks for a user's sync at most once per session
      fingerprint bootstrapped in it, plus once per cooldown, plus once. */
  lemma RateBound(t: Trace, user: string, from: int, to: int)
    requires Valid(t) && from <= to && t.policy.cooldown > 0
    ensures var n := |t.events|;
            RequestsIn(t, user, from, to, n) <= |BootstrappedIn(t, user, from, to, n)| + (to - from) / t.policy.cooldown + 1
  {
    RequestsSplit(t, user, from, to, |t.events|);
    PlainBound(t, user, from, to, |t.events|);
  }

  // ----- Exactly when it asks -----

  /** The bootstrap of this user and fingerprint is still to be made. */
  predicate Unbootstrapped(p: Policy, s: Session, l: Look) {
    p.bootstrapEnabled && LowerJs(l.username) + ":" + l.fingerprint !in s.bootstrapped
  }

  /** A sync is asked for exactly when there is reason to (the session was not bootstrapped yet, or
      the profile is not synced, never was, or too long ago), nothing is under way, the mount has an
      attempt left or has waited for the recovery time, its last attempt is at least a retry
      interval ago, and, bootstraps aside, the user's last attempt in the tab at least a cooldown.
      A tab that remembers no attempt counts from the epoch. */
  lemma AsksExactly(p: Policy, s: Session, r: Refs, l: Look)
    ensures var user := LowerJs(l.username);
            Requests(p, s, r, l) <==>
              && l.state != "syncing" && !l.pending
              && (Unbootstrapped(p, s, l) || l.state != "synced" || l.lastSynced == None || l.now - l.lastSynced.value >= p.staleAge)
              && ((if r.observed == Some(l.state) then r.attempts else 0) < p.maxAttempts || l.now - r.lastAttempt >= p.recoveryCooldown)
              && l.now - r.lastAttempt >= p.retryInterval
              && (Unbootstrapped(p, s, l) || l.now - (if user in s.lastAt then s.lastAt[user] else 0) >= p.cooldown)
    ensures KindOf(p, s, l) == if Unbootstrapped(p, s, l) then Bootstrap else Plain
  {
    hide LowerJs;
  }

  /** What an effect leaves behind. Asking counts one attempt, from nought when the state changed or
      the mount recovered, and stamps mount and session; a bootstrap is remembered. */
  lemma AfterAsking(p: Policy, s: Session, r: Refs, l: Look)
    requires Requests(p, s, r, l)
    ensures var user := LowerJs(l.username);
            var counted := if r.observed == Some(l.state) && r.attempts < p.maxAttempts then r.attempts else 0;
            && RefsAfter(p, s, r, l) == Refs(l.now, counted + 1, Some(l.state))
            && SessionAfter(p, s, r, l) == Session(s.lastAt[user := l.now],
                 if Unbootstrapped(p, s, l) then s.bootstrapped + {user + ":" + l.fingerprint} else s.bootstrapped)
  {
    hide LowerJs;
  }

  /** Without asking, only the observed state and the count of attempts can change. */
  lemma AfterNotAsking(p: Policy, s: Session, r: Refs, l: Look)
    requires !Requests(p, s, r, l)
    ensures SessionAfter(p, s, r, l) == s
    ensures var after := RefsAfter(p, s, r, l);
            && after.lastAttempt == r.lastAttempt && after.observed == Some(l.state)
            && (after.attempts == 0 || (r.observed == Some(l.state) && after.attempts == r.attempts))
            && (r.observed == Some(l.state) && r.attempts < p.maxAttempts ==> after.attempts == r.attempts)
  {
    hide LowerJs;
  }

  /** A success starts the count again; a failure stamps the session only when no attempt is left. */
  lemma AfterAnswers(p: Policy, s: Session, r: Refs, user: string, now: int)
    ensures Succeeded(r, now) == Refs(now, 0, r.observed)
    ensures SessionFailed(p, s, r, user, now) == Session(if r.attempts >= p.maxAttempts then s.lastAt[user := now] else s.lastAt, s.bootstrapped)
  {
  }

  // ----- Attempts of one mount -----

  ghost predicate RequestBy(t: Trace, i: nat, mount: int)
    requires Valid(t) && i < |t.events|
  {
    && t.events[i].Looked?
    && t.events[i].mount == mount
    && mount in t.tabs[i].mounts
    && Requests(t.policy, t.tabs[i].session, t.tabs[i].mounts[mount], t.events[i].look)
  }

  ghost function RequestsBy(t: Trace, mount: int, i: nat, j: nat): nat
    requires Valid(t) && i <= j <= |t.events|
  {
    if i == j then 0 else RequestsBy(t, mount, i, j - 1) + if RequestBy(t, j - 1, mount) then 1 else 0
  }

  /** No success is reported to the mount, it keeps seeing one state, and it has not yet
      waited for the recovery time. */
  ghost predicate Failing(t: Trace, mount: int, i: nat, j: nat, state: string)
    requires Valid(t) && i <= j <= |t.events|
  {
    forall k :: i < k < j && t.events[k].mount == mount ==>
      && !t.events[k].Answered?
      && (t.events[k].Looked? ==> t.events[k].look.state == state && t.events[k].Time() - t.events[i].Time() < t.policy.recoveryCooldown)
  }

  predicate Counts(p: Policy, refs: Refs, requests: nat, since: int, state: string) {
    requests <= refs.attempts <= p.maxAttempts && refs.lastAttempt >= since && refs.observed == Some(state)
  }

  lemma {:induction false} AttemptsCount(t: Trace, mount: int, i: nat, j: nat, state: string)
    requires Valid(t) && t.policy.maxAttempts >= 1 && i < j <= |t.events|
    requires RequestBy(t, i, mount) && t.events[i].look.state == state && Failing(t, mount, i, j, state)
    requires t.tabs[i].mounts[mount].attempts <= t.policy.maxAttempts
    ensures mount in t.tabs[j].mounts
    ensures Counts(t.policy, t.tabs[j].mounts[mount], RequestsBy(t, mount, i, j), t.events[i].Time(), state)
  {
    hide SessionAfter, SessionFailed, SessionAllows, Bootstraps, Stale;
    assert Step(t.policy, t.tabs[j - 1], t.events[j - 1], t.tabs[j]);
    if j > i + 1 {
      AttemptsCount(t, mount, i, j - 1, state);
      assert t.events[i].Time() <= t.events[j - 1].Time();
    }
  }

  lemma {:induction false} AttemptsCapped(t: Trace, n: nat, mount: int)
    requires Valid(t) && t.policy.maxAttempts >= 1 && n <= |t.events| && mount in t.tabs[n].mounts
    requires t.tabs[0].mounts == map[]
    ensures t.tabs[n].mounts[mount].attempts <= t.policy.maxAttempts
  {
    hide SessionAfter, SessionFailed, SessionAllows, Bootstraps, Stale;
    if n > 0 {
      assert Step(t.policy, t.tabs[n - 1], t.events[n - 1], t.tabs[n]);
      if mount in t.tabs[n - 1].mounts {
        AttemptsCapped(t, n - 1, mount);
      }
    }
  }

  /** Counted from any of its requests, a failing mount asks at most the configured number
      of times before it has waited for the recovery time. */
  lemma BurstBound(t: Trace, mount: int, i: nat, j: nat)
    requires Valid(t) && t.tabs[0].mounts == map[] && t.policy.maxAttempts >= 1 && i < j <= |t.events|
    requires RequestBy(t, i, mount) && Failing(t, mount, i, j, t.events[i].look.state)
    ensures RequestsBy(t, mount, i, j) <= t.policy.maxAttempts
  {
    AttemptsCapped(t, i, mount);
    AttemptsCount(t, mount, i, j, t.events[i].look.state);
  }
}
