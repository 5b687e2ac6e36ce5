/** The cache of installation access tokens: its key identifies the requested scope, and a
    cached token is only ever returned for the scope it was minted for. */
module InstallationTokens {
  import opened Common
  import opened Text

  datatype Token = Token(token: string, expiresAt: int, installationID: int)

  datatype TokenRequest = TokenRequest(installationID: int, repositoryIDs: seq<int>, permissions: map<string, string>)

  /** The order of repository identifiers and of permissions does not belong to a scope. */
  predicate SameScope(r: TokenRequest, q: TokenRequest) {
    r.installationID == q.installationID && multiset(r.repositoryIDs) == multiset(q.repositoryIDs) && r.permissions == q.permissions
  }

  // ----- Sorting identifiers -----

  predicate Ascending(s: seq<int>) { forall i, j :: 0 <= i < j < |s| ==> s[i] <= s[j] }

  function InsertID(sorted: seq<int>, id: int): (r: seq<int>)
    requires Ascending(sorted)
    ensures Ascending(r) && multiset(r) == multiset(sorted) + multiset{id}
  {
    if sorted == [] || sorted[|sorted| - 1] <= id then sorted + [id]
    else
      var last := sorted[|sorted| - 1];
      var init := sorted[..|sorted| - 1];
      assert sorted == init + [last];
      var r := InsertID(init, id);
      InsertBelow(init, id, r, last);
      r + [last]
  }

  lemma InsertBelow(init: seq<int>, id: int, r: seq<int>, last: int)
    requires Ascending(r) && multiset(r) == multiset(init) + multiset{id}
    requires id < last && forall i :: 0 <= i < |init| ==> init[i] <= last
    ensures Ascending(r + [last]) && multiset(r + [last]) == multiset(init + [last]) + multiset{id}
  {
    assert multiset(r + [last]) == multiset(r) + multiset{last};
    assert multiset(init + [last]) == multiset(init) + multiset{last};
    forall i | 0 <= i < |r|
      ensures r[i] <= last
    {
      assert r[i] in multiset(r);
      assert r[i] in multiset(init) || r[i] == id;
    }
  }

  function SortIDs(ids: seq<int>): (r: seq<int>)
    ensures Ascending(r) && multiset(r) == multiset(ids)
  {
    if ids == [] then []
    else
      assert ids == ids[..|ids| - 1] + [ids[|ids| - 1]];
      InsertID(SortIDs(ids[..|ids| - 1]), ids[|ids| - 1])
  }

  /** There is one way to sort a collection of identifiers. */
  lemma {:induction false} SortedUnique(a: seq<int>, b: seq<int>)
    requires Ascending(a) && Ascending(b) && multiset(a) == multiset(b)
    ensures a == b
  {
    hide Ascending;
    assert |multiset(a)| == |a| && |multiset(b)| == |b|;
    if a != [] {
      var n := |a| - 1;
      WithoutLast(a, b[n]);
      WithoutLast(b, a[n]);
      assert a[n] == b[n];
      SortedUnique(a[..n], b[..n]);
      assert a == a[..n] + [a[n]] && b == b[..n] + [b[n]];
    }
  }

  lemma WithoutLast(a: seq<int>, x: int)
    requires a != [] && Ascending(a)
    ensures Ascending(a[..|a| - 1]) && multiset(a[..|a| - 1]) == multiset(a) - multiset{a[|a| - 1]}
    ensures a[|a| - 1] in multiset(a) && (x in multiset(a) ==> x <= a[|a| - 1])
  {
    assert a == a[..|a| - 1] + [a[|a| - 1]];
    if x in multiset(a) {
      var i :| 0 <= i < |a| && a[i] == x;
    }
  }

  // ----- Sorting names -----

  /** Lexicographic order. */
  predicate Before(a: string, b: string) {
    if b == "" then false
    else if a == "" then true
    else if a[0] != b[0] then a[0] < b[0]
    else Before(a[1..], b[1..])
  }

  lemma {:induction false} BeforeTotal(a: string, b: string)
    ensures a == b || Before(a, b) || Before(b, a)
    ensures !(Before(a, b) && Before(b, a)) && !Before(a, a)
  {
    if a != "" && b != "" {
      BeforeTotal(a[1..], b[1..]);
      assert a == [a[0]] + a[1..] && b == [b[0]] + b[1..];
    }
    if a != "" {
      BeforeIrreflexive(a);
    }
  }

  lemma {:induction false} BeforeIrreflexive(a: string)
    ensures !Before(a, a)
  {
    if a != "" {
      BeforeIrreflexive(a[1..]);
    }
  }

  lemma {:induction false} BeforeTransitive(a: string, b: string, c: string)
    requires Before(a, b) && Before(b, c)
    ensures Before(a, c)
  {
    if a != "" && a[0] == b[0] == c[0] {
      BeforeTransitive(a[1..], b[1..], c[1..]);
    }
  }

  predicate InOrder(names: seq<string>) { forall i, j :: 0 <= i < j < |names| ==> Before(names[i], names[j]) }

  /** The keys of the map, sorted. */
  ghost predicate SortedKeys(names: seq<string>, m: map<string, string>) {
    InOrder(names) && (forall s :: s in names <==> s in m)
  }

  lemma {:induction false} SortedKeysUnique(a: seq<string>, b: seq<string>)
    requires InOrder(a) && InOrder(b) && forall s :: s in a <==> s in b
    ensures a == b
  {
    if a == [] {
      FirstIsIn(b);
    } else {
      assert b != [] by { assert a[0] in b; }
      FirstIsLeast(a, b[0]);
      FirstIsLeast(b, a[0]);
      BeforeTotal(a[0], b[0]);
      assert a[0] == b[0];
      forall s
        ensures s in a[1..] <==> s in b[1..]
      {
        RestOfOrder(a, s);
        RestOfOrder(b, s);
      }
      SortedKeysUnique(a[1..], b[1..]);
      assert a == [a[0]] + a[1..] && b == [b[0]] + b[1..];
    }
  }

  lemma FirstIsIn(a: seq<string>)
    ensures a == [] || a[0] in a
  {
  }

  lemma FirstIsLeast(a: seq<string>, s: string)
    requires a != [] && InOrder(a) && s in a
    ensures s == a[0] || Before(a[0], s)
  {
    var i :| 0 <= i < |a| && a[i] == s;
  }

  lemma RestOfOrder(a: seq<string>, s: string)
    requires a != [] && InOrder(a)
    ensures s in a[1..] <==> s in a && s != a[0]
  {
    if s in a[1..] {
      var i :| 0 <= i < |a| - 1 && a[1..][i] == s;
      assert a[i + 1] == s && Before(a[0], a[i + 1]);
      BeforeIrreflexive(s);
    }
    if s in a && s != a[0] {
      var i :| 0 <= i < |a| && a[i] == s;
      assert a[1..][i - 1] == s;
    }
  }

  // ----- The key -----

  function IDParts(ids: seq<int>): (r: seq<string>)
    ensures |r| == |ids| && forall i :: 0 <= i < |r| ==> r[i] == Dec(ids[i])
  {
    seq(|ids|, i requires 0 <= i < |ids| => Dec(ids[i]))
  }

  function PermissionParts(names: seq<string>, m: map<string, string>): (r: seq<string>)
    requires forall s :: s in names ==> s in m
    ensures |r| == |names| && forall i :: 0 <= i < |r| ==> r[i] == names[i] + "=" + m[names[i]]
  {
    seq(|names|, i requires 0 <= i < |names| => names[i] + "=" + m[names[i]])
  }

  ghost function Parts(r: TokenRequest, names: seq<string>): seq<string>
    requires SortedKeys(names, r.permissions)
  {
    [Dec(r.installationID)] + IDParts(SortIDs(r.repositoryIDs)) + PermissionParts(names, r.permissions)
  }

  ghost predicate KeyFor(key: string, r: TokenRequest) {
    exists names :: SortedKeys(names, r.permissions) && key == Join(Parts(r, names), '|')
  }

  /** The separators that permission names and values are allowed to contain. */
  datatype Convention = Convention(barInNames: bool, barInValues: bool, equalsInNames: bool, equalsInValues: bool)

  predicate Obeys(r: TokenRequest, c: Convention) {
    forall s :: s in r.permissions ==>
      && ('|' in s ==> c.barInNames) && ('|' in r.permissions[s] ==> c.barInValues)
      && ('=' in s ==> c.equalsInNames) && ('=' in r.permissions[s] ==> c.equalsInValues)
  }

  /** Names without bars; and if values may hold an equals sign, then names hold none and
      values no bar. */
  predicate Safe(c: Convention) {
    !c.barInNames && (c.equalsInValues ==> !c.equalsInNames && !c.barInValues)
  }

  method CacheKey(r: TokenRequest) returns (key: string)
    ensures KeyFor(key, r)
  {
    hide Dec, SortIDs, Join, InOrder;
    var parts := [Dec(r.installationID)];
    var ids := SortIDs(r.repositoryIDs);
    for i := 0 to |ids|
      invariant parts == [Dec(r.installationID)] + IDParts(ids)[..i]
    {
      parts := parts + [Dec(ids[i])];
    }
    var names := SortNames(r.permissions.Keys);
    for i := 0 to |names|
      invariant parts == [Dec(r.installationID)] + IDParts(ids) + PermissionParts(names, r.permissions)[..i]
    {
      parts := parts + [names[i] + "=" + r.permissions[names[i]]];
    }
    assert parts == Parts(r, names);
    key := Join(parts, '|');
  }

  /** Collects the names in whatever order the map gives them and sorts them. */
  method SortNames(all: set<string>) returns (names: seq<string>)
    ensures InOrder(names) && forall s :: s in names <==> s in all
  {
    names := [];
    var left := all;
    while left != {}
      invariant left <= all && InOrder(names) && forall s :: s in names <==> s in all && s !in left
      decreases left
    {
      var s :| s in left;
      names := InsertName(names, s);
      left := left - {s};
    }
  }

  method InsertName(names: seq<string>, s: string) returns (r: seq<string>)
    requires InOrder(names) && s !in names
    ensures InOrder(r) && forall t :: t in r <==> t in names || t == s
  {
    var p := 0;
    while p < |names| && Before(names[p], s)
      invariant 0 <= p <= |names| && forall i :: 0 <= i < p ==> Before(names[i], s)
    {
      p := p + 1;
    }
    forall i | p <= i < |names|
      ensures Before(s, names[i])
    {
      BeforeTotal(names[p], s);
      if i > p {
        BeforeTransitive(s, names[p], names[i]);
      }
    }
    assert names == names[..p] + names[p..];
    r := names[..p] + [s] + names[p..];
  }

  // ----- What the key identifies -----

  /** No bars, and no equals sign in names: every part can be read by itself. */
  predicate Clean(r: TokenRequest) { Obeys(r, Convention(false, false, false, true)) }

  lemma PartsReadable(r: TokenRequest, names: seq<string>)
    requires SortedKeys(names, r.permissions) && Clean(r)
    ensures forall i :: 0 <= i < |Parts(r, names)| ==> '|' !in Parts(r, names)[i]
    ensures forall i :: 0 <= i < |Parts(r, names)| ==> ('=' in Parts(r, names)[i] <==> i > |r.repositoryIDs|)
  {
    hide SortIDs, Dec;
    var ids := SortIDs(r.repositoryIDs);
    assert |multiset(ids)| == |ids| && |multiset(r.repositoryIDs)| == |r.repositoryIDs|;
    DecChars(r.installationID);
    forall i | 0 <= i < |Parts(r, names)|
      ensures '|' !in Parts(r, names)[i] && ('=' in Parts(r, names)[i] <==> i > |ids|)
    {
      if 0 < i <= |ids| {
        DecChars(ids[i - 1]);
      } else if i > |ids| {
        PermissionReadable(r, names, i - 1 - |ids|);
      }
    }
  }

  lemma PermissionReadable(r: TokenRequest, names: seq<string>, k: nat)
    requires SortedKeys(names, r.permissions) && Clean(r) && k < |names|
    ensures var part := PermissionParts(names, r.permissions)[k]; '|' !in part && '=' in part
  {
    assert names[k] in names;
    var part := names[k] + "=" + r.permissions[names[k]];
    assert part[|names[k]|] == '=';
  }

  /** The position of the first part with an equals sign tells how many identifiers there are. */
  lemma SameSplit(parts: seq<string>, m: nat, n: nat)
    requires forall i :: 0 <= i < |parts| ==> ('=' in parts[i] <==> i > m)
    requires forall i :: 0 <= i < |parts| ==> ('=' in parts[i] <==> i > n)
    requires m < |parts| && n < |parts|
    ensures m == n
  {
    assert '=' in parts[m] <==> m > n;
    assert '=' in parts[n] <==> n > m;
  }

  lemma PartsGiveScope(r: TokenRequest, rn: seq<string>, q: TokenRequest, qn: seq<string>)
    requires SortedKeys(rn, r.permissions) && SortedKeys(qn, q.permissions) && Clean(r) && Clean(q)
    requires Parts(r, rn) == Parts(q, qn)
    ensures SameScope(r, q)
  {
    hide SortIDs, Dec;
    var parts := Parts(r, rn);
    var a, b := SortIDs(r.repositoryIDs), SortIDs(q.repositoryIDs);
    assert |multiset(a)| == |a| && |multiset(r.repositoryIDs)| == |r.repositoryIDs|;
    assert |multiset(b)| == |b| && |multiset(q.repositoryIDs)| == |q.repositoryIDs|;
    PartsReadable(r, rn);
    PartsReadable(q, qn);
    SameSplit(parts, |a|, |b|);
    assert parts[0] == Dec(r.installationID) == Dec(q.installationID);
    DecInjective(r.installationID, q.installationID);
    assert parts[1..1 + |a|] == IDParts(a) == IDParts(b);
    SameIDs(a, b);
    assert parts[1 + |a|..] == PermissionParts(rn, r.permissions) == PermissionParts(qn, q.permissions);
    SamePermissions(r, rn, q, qn);
  }

  lemma SameIDs(a: seq<int>, b: seq<int>)
    requires IDParts(a) == IDParts(b)
    ensures a == b
  {
    hide Dec;
    forall i | 0 <= i < |a|
      ensures a[i] == b[i]
    {
      assert IDParts(a)[i] == Dec(a[i]) == Dec(b[i]);
      DecInjective(a[i], b[i]);
    }
  }

  lemma SamePermissions(r: TokenRequest, rn: seq<string>, q: TokenRequest, qn: seq<string>)
    requires SortedKeys(rn, r.permissions) && SortedKeys(qn, q.permissions) && Clean(r) && Clean(q)
    requires PermissionParts(rn, r.permissions) == PermissionParts(qn, q.permissions)
    ensures r.permissions == q.permissions
  {
    forall i | 0 <= i < |rn|
      ensures rn[i] == qn[i] && r.permissions[rn[i]] == q.permissions[qn[i]]
    {
      assert rn[i] in rn && qn[i] in qn;
      assert PermissionParts(rn, r.permissions)[i] == rn[i] + ['='] + r.permissions[rn[i]] == qn[i] + ['='] + q.permissions[qn[i]];
      CutUnique(rn[i], r.permissions[rn[i]], qn[i], q.permissions[qn[i]], '=');
    }
    assert rn == qn;
    assert forall s :: s in r.permissions ==> s in rn;
  }

  /** No equals sign in values, no bar in names: the key can be read from its end. */
  predicate ReadsBackwards(names: seq<string>, m: map<string, string>) {
    forall i :: 0 <= i < |names| ==> names[i] in m && '|' !in names[i] && '=' !in m[names[i]]
  }

  lemma LastPermission(base: seq<string>, names: seq<string>, m: map<string, string>)
    requires base != [] && names != [] && ReadsBackwards(names, m)
    ensures var n := |names| - 1;
            Join(base + PermissionParts(names, m), '|')
            == Join(base + PermissionParts(names[..n], m), '|') + ['|'] + names[n] + ['='] + m[names[n]]
  {
    var n := |names| - 1;
    var before := base + PermissionParts(names[..n], m);
    var part := names[n] + "=" + m[names[n]];
    assert base + PermissionParts(names, m) == before + [part];
    JoinLast(before, part, '|');
  }

  /** Permissions are taken off both ends in step; a key without an equals sign has none. */
  lemma {:induction false} SameBackwards(b: seq<string>, bn: seq<string>, bm: map<string, string>,
                                         c: seq<string>, cn: seq<string>, cm: map<string, string>)
    requires b != [] && c != [] && '=' !in Join(b, '|') && '=' !in Join(c, '|')
    requires ReadsBackwards(bn, bm) && ReadsBackwards(cn, cm)
    requires Join(b + PermissionParts(bn, bm), '|') == Join(c + PermissionParts(cn, cm), '|')
    ensures Join(b, '|') == Join(c, '|') && bn == cn && forall s :: s in bn ==> bm[s] == cm[s]
  {
    hide Join, PermissionParts;
    NoPermission(b, bm);
    NoPermission(c, cm);
    if bn != [] {
      LastPermission(b, bn, bm);
    }
    if cn != [] {
      LastPermission(c, cn, cm);
    }
    if bn != [] && cn != [] {
      var m, n := |bn| - 1, |cn| - 1;
      CutLast(Join(b + PermissionParts(bn[..m], bm), '|') + ['|'] + bn[m], bm[bn[m]],
              Join(c + PermissionParts(cn[..n], cm), '|') + ['|'] + cn[n], cm[cn[n]], '=');
      CutLast(Join(b + PermissionParts(bn[..m], bm), '|'), bn[m], Join(c + PermissionParts(cn[..n], cm), '|'), cn[n], '|');
      SameBackwards(b, bn[..m], bm, c, cn[..n], cm);
      assert bn == bn[..m] + [bn[m]] && cn == cn[..n] + [cn[n]];
    }
  }

  lemma NoPermission(base: seq<string>, m: map<string, string>)
    requires base != []
    ensures Join(base + PermissionParts([], m), '|') == Join(base, '|')
  {
    assert base + PermissionParts([], m) == base;
  }

  function Base(r: TokenRequest): (parts: seq<string>)
    ensures parts != []
  {
    [Dec(r.installationID)] + IDParts(SortIDs(r.repositoryIDs))
  }

  lemma {:induction false} JoinHasNo(parts: seq<string>, sep: char, c: char)
    requires parts != [] && sep != c && forall i :: 0 <= i < |parts| ==> c !in parts[i]
    ensures c !in Join(parts, sep)
  {
    if |parts| > 1 {
      JoinHasNo(parts[1..], sep, c);
    }
  }

  lemma BaseReadable(r: TokenRequest)
    ensures '=' !in Join(Base(r), '|') && forall i :: 0 <= i < |Base(r)| ==> '|' !in Base(r)[i]
  {
    hide Join, Dec, SortIDs;
    forall i | 0 <= i < |Base(r)|
      ensures '|' !in Base(r)[i] && '=' !in Base(r)[i]
    {
      DecChars(if i == 0 then r.installationID else SortIDs(r.repositoryIDs)[i - 1]);
    }
    JoinHasNo(Base(r), '|', '=');
  }

  lemma BackwardsGivesScope(r: TokenRequest, rn: seq<string>, q: TokenRequest, qn: seq<string>)
    requires SortedKeys(rn, r.permissions) && SortedKeys(qn, q.permissions)
    requires ReadsBackwards(rn, r.permissions) && ReadsBackwards(qn, q.permissions)
    requires Join(Parts(r, rn), '|') == Join(Parts(q, qn), '|')
    ensures SameScope(r, q)
  {
    hide Join, Dec, SortIDs, PermissionParts, ReadsBackwards;
    BaseReadable(r);
    BaseReadable(q);
    assert Parts(r, rn) == Base(r) + PermissionParts(rn, r.permissions);
    assert Parts(q, qn) == Base(q) + PermissionParts(qn, q.permissions);
    SameBackwards(Base(r), rn, r.permissions, Base(q), qn, q.permissions);
    JoinInjective(Base(r), Base(q), '|');
    assert Base(r)[0] == Dec(r.installationID) && Base(q)[0] == Dec(q.installationID);
    DecInjective(r.installationID, q.installationID);
    assert Base(r)[1..] == IDParts(SortIDs(r.repositoryIDs)) && Base(q)[1..] == IDParts(SortIDs(q.repositoryIDs));
    SameIDs(SortIDs(r.repositoryIDs), SortIDs(q.repositoryIDs));
    assert forall s :: s in r.permissions <==> s in rn;
    assert forall s :: s in q.permissions <==> s in rn;
  }

  /** Under a safe convention two requests have the same key exactly when they ask for the
      same installation, the same repositories and the same permissions, in any order. */
  lemma KeyIdentifiesScope(c: Convention, r: TokenRequest, rk: string, q: TokenRequest, qk: string)
    requires Safe(c) && Obeys(r, c) && Obeys(q, c) && KeyFor(rk, r) && KeyFor(qk, q)
    ensures rk == qk <==> SameScope(r, q)
  {
    hide SortIDs, Dec, Join;
    var rn :| SortedKeys(rn, r.permissions) && rk == Join(Parts(r, rn), '|');
    var qn :| SortedKeys(qn, q.permissions) && qk == Join(Parts(q, qn), '|');
    if rk == qk && c.equalsInValues {
      PartsReadable(r, rn);
      PartsReadable(q, qn);
      JoinInjective(Parts(r, rn), Parts(q, qn), '|');
      PartsGiveScope(r, rn, q, qn);
    } else if rk == qk {
      ObeysBackwards(r, rn, c);
      ObeysBackwards(q, qn, c);
      BackwardsGivesScope(r, rn, q, qn);
    }
    if SameScope(r, q) {
      SortedUnique(SortIDs(r.repositoryIDs), SortIDs(q.repositoryIDs));
      SortedKeysUnique(rn, qn);
    }
  }

  lemma ObeysBackwards(r: TokenRequest, names: seq<string>, c: Convention)
    requires SortedKeys(names, r.permissions) && Obeys(r, c) && Safe(c) && !c.equalsInValues
    ensures ReadsBackwards(names, r.permissions)
  {
    forall i | 0 <= i < |names|
      ensures names[i] in r.permissions && '|' !in names[i] && '=' !in r.permissions[names[i]]
    {
      assert names[i] in names;
    }
  }

  // ----- Collisions -----

  /** Two different scopes with one key. */
  ghost predicate Collide(r: TokenRequest, q: TokenRequest) {
    !SameScope(r, q) && exists key :: KeyFor(key, r) && KeyFor(key, q)
  }

  lemma EqualPartsCollide(r: TokenRequest, rn: seq<string>, q: TokenRequest, qn: seq<string>)
    requires SortedKeys(rn, r.permissions) && SortedKeys(qn, q.permissions) && !SameScope(r, q)
    requires Join(Parts(r, rn), '|') == Join(Parts(q, qn), '|')
    ensures Collide(r, q)
  {
    hide Join;
    var key := Join(Parts(r, rn), '|');
    assert KeyFor(key, r) && KeyFor(key, q);
  }

  lemma OneName(name: string, value: string)
    ensures SortedKeys([name], map[name := value])
  {
  }

  lemma OneMissing(m: map<string, string>, n: map<string, string>, name: string)
    requires name in m && name !in n
    ensures m != n
  {
  }

  /** An equals sign in a name collides with one in a value, wherever it stands. */
  lemma EqualsCollide(id: int, ids: seq<int>, u: string, w: string, v: string)
    ensures Collide(TokenRequest(id, ids, map[u + "=" + w := v]), TokenRequest(id, ids, map[u := w + "=" + v]))
  {
    hide SortIDs, Dec, Join, SortedKeys;
    var r := TokenRequest(id, ids, map[u + "=" + w := v]);
    var q := TokenRequest(id, ids, map[u := w + "=" + v]);
    OneName(u + "=" + w, v);
    OneName(u, w + "=" + v);
    assert |u + "=" + w| != |u|;
    OneMissing(r.permissions, q.permissions, u + "=" + w);
    assert u + "=" + w + "=" + v == u + "=" + (w + "=" + v);
    assert PermissionParts([u + "=" + w], r.permissions) == PermissionParts([u], q.permissions);
    EqualPartsCollide(r, [u + "=" + w], q, [u]);
  }

  lemma SortFew(id: int)
    ensures SortIDs([]) == [] && SortIDs([id]) == [id]
  {
    SortedUnique(SortIDs([id]), [id]);
  }

  /** A permission printed after no and after one repository. */
  lemma SmallKeys(id: int, extra: int, name: string, v: string)
    ensures SortedKeys([name], map[name := v])
    ensures Join(Parts(TokenRequest(id, [], map[name := v]), [name]), '|') == Dec(id) + ['|'] + (name + ['='] + v)
    ensures Join(Parts(TokenRequest(id, [extra], map[name := v]), [name]), '|')
            == Dec(id) + ['|'] + Dec(extra) + ['|'] + (name + ['='] + v)
  {
    hide Dec, SortIDs, Join;
    OneName(name, v);
    SortFew(extra);
    var r, q := TokenRequest(id, [], map[name := v]), TokenRequest(id, [extra], map[name := v]);
    var part := name + ['='] + v;
    assert Parts(r, [name]) == [Dec(id)] + [part];
    assert Parts(q, [name]) == [Dec(id)] + [Dec(extra)] + [part];
    JoinOne(Dec(id), '|');
    JoinLast([Dec(id)], part, '|');
    JoinLast([Dec(id)] + [Dec(extra)], part, '|');
    JoinLast([Dec(id)], Dec(extra), '|');
  }

  lemma JoinOne(part: string, sep: char)
    ensures Join([part], sep) == part
  {
  }

  /** A number and a bar in front of a name collide with one more repository. */
  lemma BarInNameCollides(id: int, extra: int, x: string, v: string)
    ensures Collide(TokenRequest(id, [], map[Dec(extra) + "|" + x := v]), TokenRequest(id, [extra], map[x := v]))
  {
    hide Dec, SortIDs, Join, Parts, SortedKeys;
    var name := Dec(extra) + "|" + x;
    var r, q := TokenRequest(id, [], map[name := v]), TokenRequest(id, [extra], map[x := v]);
    assert |multiset(r.repositoryIDs)| != |multiset(q.repositoryIDs)|;
    SmallKeys(id, extra, name, v);
    SmallKeys(id, extra, x, v);
    assert Dec(id) + ['|'] + (name + ['='] + v) == Dec(id) + ['|'] + Dec(extra) + ['|'] + (x + ['='] + v);
    EqualPartsCollide(r, [name], q, [x]);
  }

  /** A bar and an equals sign in a value collide with one more permission. */
  lemma BarInValueCollides(id: int, ids: seq<int>, a: string, v: string, b: string, w: string)
    requires Before(a, b)
    ensures Collide(TokenRequest(id, ids, map[a := v + "|" + b + "=" + w]), TokenRequest(id, ids, map[a := v, b := w]))
  {
    hide Dec, SortIDs, Join;
    var value := v + "|" + b + "=" + w;
    var r := TokenRequest(id, ids, map[a := value]);
    var q := TokenRequest(id, ids, map[a := v, b := w]);
    BeforeIrreflexive(a);
    OneName(a, value);
    TwoNames(a, v, b, w);
    assert |value| != |v|;
    assert r.permissions[a] != q.permissions[a];
    var base := Base(r);
    assert Parts(r, [a]) == base + [a + "=" + value];
    assert Parts(q, [a, b]) == base + [a + "=" + v] + [b + "=" + w];
    JoinLast(base, a + "=" + value, '|');
    JoinLast(base, a + "=" + v, '|');
    JoinLast(base + [a + "=" + v], b + "=" + w, '|');
    assert Join(base, '|') + ['|'] + (a + "=" + value) == Join(base, '|') + ['|'] + (a + "=" + v) + ['|'] + (b + "=" + w);
    EqualPartsCollide(r, [a], q, [a, b]);
  }

  lemma TwoNames(a: string, v: string, b: string, w: string)
    requires Before(a, b) && a != b
    ensures SortedKeys([a, b], map[a := v, b := w])
  {
    hide Before;
  }

  /** Under the convention a key never serves two scopes. */
  ghost predicate Identifies(c: Convention) {
    forall r, q :: Obeys(r, c) && Obeys(q, c) ==> !Collide(r, q)
  }

  /** The safe conventions are exactly those under which keys identify scopes. */
  lemma SafeExactly(c: Convention)
    ensures Identifies(c) <==> Safe(c)
  {
    hide KeyFor, SameScope, Collide;
    if Safe(c) {
      forall r, q | Obeys(r, c) && Obeys(q, c)
        ensures !Collide(r, q)
      {
        NoCollision(c, r, q);
      }
    } else if c.barInNames {
      BarInNameCollides(1, 5, "x", "v");
      Unbarred();
      assert Obeys(TokenRequest(1, [], map[Dec(5) + "|" + "x" := "v"]), c);
      assert Obeys(TokenRequest(1, [5], map["x" := "v"]), c);
    } else if c.equalsInNames {
      EqualsCollide(1, [], "a", "b", "c");
      assert Obeys(TokenRequest(1, [], map["a" + "=" + "b" := "c"]), c);
      assert Obeys(TokenRequest(1, [], map["a" := "b" + "=" + "c"]), c);
    } else {
      BarInValueCollides(1, [], "a", "v", "b", "w");
      assert Obeys(TokenRequest(1, [], map["a" := "v" + "|" + "b" + "=" + "w"]), c);
      assert Obeys(TokenRequest(1, [], map["a" := "v", "b" := "w"]), c);
    }
  }

  lemma Unbarred()
    ensures '=' !in Dec(5)
  {
    DecChars(5);
  }

  lemma NoCollision(c: Convention, r: TokenRequest, q: TokenRequest)
    requires Safe(c) && Obeys(r, c) && Obeys(q, c)
    ensures !Collide(r, q)
  {
    hide KeyFor, SameScope, Safe, Obeys;
    if Collide(r, q) {
      var key :| KeyFor(key, r) && KeyFor(key, q);
      KeyIdentifiesScope(c, r, key, q, key);
    }
  }

  // ----- The cache -----

  class InstallationTokenBroker {
    const refreshSkew: int
    var cache: map<string, Token>

    constructor (refreshSkew: int)
      ensures cache == map[] && this.refreshSkew == if refreshSkew <= 0 then 300_000_000_000 else refreshSkew
    {
      this.refreshSkew := if refreshSkew <= 0 then 300_000_000_000 else refreshSkew;
      cache := map[];
    }

    /** `minted` is what the API answers if asked; `now` is the clock at the cache check. */
    method GetToken(req: TokenRequest, minted: Result<Token>, now: int) returns (r: Result<Token>, ghost key: string)
      modifies this
      ensures req.installationID <= 0 ==> r.Err? && cache == old(cache)
      ensures req.installationID > 0 ==>
                && KeyFor(key, req)
                && (cache, r) == if Usable(old(cache), key, now, refreshSkew) then (old(cache), Ok(old(cache)[key]))
                                 else match minted
                                      case Err(_) => (old(cache), minted)
                                      case Ok(token) => (Store(old(cache), key, req, token), Ok(token.(installationID := req.installationID)))
      ensures req.installationID > 0 && key in old(cache) && old(cache)[key].expiresAt > now + refreshSkew ==>
                r == Ok(old(cache)[key]) && cache == old(cache)
      ensures req.installationID > 0 && !(key in old(cache) && old(cache)[key].expiresAt > now + refreshSkew) && minted.Ok? ==>
                && r.Ok? && r.value == minted.value.(installationID := req.installationID)
                && key in cache && cache[key] == r.value
                && (forall k :: k != key ==> (k in cache <==> k in old(cache)) && (k in cache ==> cache[k] == old(cache)[k]))
    {
      key := "";
      if req.installationID <= 0 {
        return Err("installation ID is required"), key;
      }
      var k := CacheKey(req);
      key := k;
      if k in cache && cache[k].expiresAt - now > refreshSkew {
        return Ok(cache[k]), key;
      }
      if minted.Err? {
        return minted, key;
      }
      var token := minted.value.(installationID := req.installationID);
      cache := cache[k := token];
      return Ok(token), key;
    }
  }

  predicate Usable(cache: map<string, Token>, key: string, now: int, skew: int) {
    key in cache && cache[key].expiresAt - now > skew
  }

  function Store(cache: map<string, Token>, key: string, req: TokenRequest, token: Token): map<string, Token> {
    cache[key := token.(installationID := req.installationID)]
  }

  // ----- Concurrent use -----

  /** The lock is released while a token is minted, so checks of the cache and stores of
      minted tokens interleave freely. */
  datatype Event =
    | Check(req: TokenRequest, key: string, now: int)
    | Mint(req: TokenRequest, key: string, token: Token)

  ghost predicate Run(c: Convention, caches: seq<map<string, Token>>, events: seq<Event>) {
    && |caches| == |events| + 1 && caches[0] == map[]
    && forall i :: 0 <= i < |events| ==>
         KeyFor(events[i].key, events[i].req) && Obeys(events[i].req, c) &&
         caches[i + 1] == match events[i]
                          case Check(_, _, _) => caches[i]
                          case Mint(req, key, token) => Store(caches[i], key, req, token)
  }

  ghost predicate MintedBefore(events: seq<Event>, n: nat, key: string, token: Token)
    requires n <= |events|
  {
    exists a :: 0 <= a < n && events[a].Mint? && events[a].key == key
                && token == events[a].token.(installationID := events[a].req.installationID)
  }

  lemma {:induction false} EveryEntryMinted(c: Convention, caches: seq<map<string, Token>>, events: seq<Event>, n: nat)
    requires Run(c, caches, events) && n <= |events|
    ensures forall key :: key in caches[n] ==> MintedBefore(events, n, key, caches[n][key])
  {
    hide KeyFor, Obeys;
    if n > 0 {
      EveryEntryMinted(c, caches, events, n - 1);
      forall key | key in caches[n]
        ensures MintedBefore(events, n, key, caches[n][key])
      {
        if events[n - 1].Mint? && events[n - 1].key == key {
          assert caches[n][key] == events[n - 1].token.(installationID := events[n - 1].req.installationID);
        } else {
          assert MintedBefore(events, n - 1, key, caches[n - 1][key]);
        }
      }
    }
  }

  /** Whatever the interleaving, a token served from the cache was minted earlier for the very
      scope it is served for, and has more than the refresh margin left. */
  lemma ServedForItsScope(c: Convention, caches: seq<map<string, Token>>, events: seq<Event>, n: nat, skew: int) returns (a: nat)
    requires Safe(c) && Run(c, caches, events) && n < |events| && events[n].Check?
    requires Usable(caches[n], events[n].key, events[n].now, skew)
    ensures a < n && events[a].Mint? && SameScope(events[a].req, events[n].req)
    ensures caches[n][events[n].key] == events[a].token.(installationID := events[n].req.installationID)
    ensures events[a].token.expiresAt - events[n].now > skew
  {
    hide KeyFor, Obeys;
    EveryEntryMinted(c, caches, events, n);
    var key, token := events[n].key, caches[n][events[n].key];
    assert MintedBefore(events, n, key, token);
    a :| 0 <= a < n && events[a].Mint? && events[a].key == key
         && token == events[a].token.(installationID := events[a].req.installationID);
    KeyIdentifiesScope(c, events[a].req, events[a].key, events[n].req, events[n].key);
  }

  /** The last token minted under the key. */
  ghost predicate LastMint(events: seq<Event>, a: nat, n: nat, key: string)
    requires n <= |events|
  {
    && a < n && events[a].Mint? && events[a].key == key
    && forall i :: a < i < n && events[i].Mint? ==> events[i].key != key
  }

  lemma {:induction false} LastMintStays(c: Convention, caches: seq<map<string, Token>>, events: seq<Event>, a: nat, n: nat, key: string)
    requires Run(c, caches, events) && n <= |events| && LastMint(events, a, n, key)
    ensures key in caches[n] && caches[n][key] == events[a].token.(installationID := events[a].req.installationID)
    decreases n
  {
    hide KeyFor, Obeys;
    if n > a + 1 {
      LastMintStays(c, caches, events, a, n - 1, key);
    }
  }

  /** A token with more than the margin left is served to every request for its scope, in whatever
      order repositories and permissions are listed, until another is minted for that scope. */
  lemma ServedWhileGood(c: Convention, caches: seq<map<string, Token>>, events: seq<Event>, a: nat, n: nat, skew: int)
    requires Safe(c) && Run(c, caches, events) && n < |events| && events[n].Check? && a < n
    requires LastMint(events, a, n, events[a].key) && SameScope(events[a].req, events[n].req)
    requires events[a].token.expiresAt > events[n].now + skew
    ensures Usable(caches[n], events[n].key, events[n].now, skew)
    ensures caches[n][events[n].key] == events[a].token.(installationID := events[n].req.installationID)
  {
    hide KeyFor, Obeys;
    KeyIdentifiesScope(c, events[a].req, events[a].key, events[n].req, events[n].key);
    LastMintStays(c, caches, events, a, n, events[a].key);
  }
}
