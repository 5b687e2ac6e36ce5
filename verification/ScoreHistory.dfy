/** Score history collapsed to one entry per pull request. */
module ScoreHistory {
  import opened Common
  import opened Text
  import opened KeyedFold
  import U = UniqueStrings

  datatype Evidence = Complete | Partial

  datatype PullRequest = PullRequest(repository: string, number: int, details: string)

  datatype Entry = Entry(
    eventID: string, eventType: string, category: Option<string>, deltaXP: real, createdAt: Stamp,
    scoreVersion: Option<string>, formulaVersion: Option<string>, pullRequestID: Option<string>,
    analysisID: Option<string>, evidenceState: Option<Evidence>, evidenceMissing: Option<seq<string>>,
    pullRequest: Option<PullRequest>, explanation: Option<seq<string>>)

  // ----- The key -----

  /** Owner and name: the first two parts between slashes, a missing name being "repo". */
  function SplitRepositoryName(fullName: string): (string, string) {
    var i := Find(fullName, '/');
    if i == |fullName| then (fullName, "repo")
    else
      var tail := fullName[i + 1..];
      (fullName[..i], tail[..Find(tail, '/')])
  }

  function EntryKey(e: Entry): string {
    if e.pullRequest.None? then ""
    else
      var (owner, repo) := SplitRepositoryName(e.pullRequest.value.repository);
      LowerJs(owner) + "/" + LowerJs(repo) + "#" + Dec(e.pullRequest.value.number)
  }

  /** What comes before the first slash, and between the first and the second one. */
  lemma OwnerAndName(owner: string, tail: string)
    requires '/' !in owner
    ensures SplitRepositoryName(owner) == (owner, "repo")
    ensures '/' !in tail ==> SplitRepositoryName(owner + "/" + tail) == (owner, tail)
    ensures forall name, rest :: '/' !in name && tail == name + "/" + rest ==> SplitRepositoryName(owner + "/" + tail) == (owner, name)
  {
    hide SplitRepositoryName;
    NoSlashNoName(owner);
    SplitTwice(owner, tail);
    if '/' !in tail {
      FindNone(tail, '/');
      assert tail[..|tail|] == tail;
    }
    forall name, rest | '/' !in name && tail == name + "/" + rest
      ensures SplitRepositoryName(owner + "/" + tail) == (owner, name)
    {
      FindCut(name, rest, '/');
      assert tail[..|name|] == name;
    }
  }

  lemma NoSlashNoName(owner: string)
    requires '/' !in owner
    ensures SplitRepositoryName(owner) == (owner, "repo")
  {
    FindNone(owner, '/');
  }

  lemma SplitTwice(owner: string, tail: string)
    requires '/' !in owner
    ensures SplitRepositoryName(owner + "/" + tail) == (owner, tail[..Find(tail, '/')])
  {
    var whole := owner + "/" + tail;
    FindCut(owner, tail, '/');
    assert whole[..|owner|] == owner && whole[|owner| + 1..] == tail;
  }

  lemma FindNone(s: string, c: char)
    requires c !in s
    ensures Find(s, c) == |s|
  {
  }

  lemma OwnerHasNoSlash(fullName: string)
    ensures '/' !in SplitRepositoryName(fullName).0
  {
  }

  /** Two entries about pull requests have the same key exactly when number, owner and name of
      the repository agree, owner and name up to case. */
  lemma SamePullRequest(a: Entry, b: Entry)
    requires a.pullRequest.Some? && b.pullRequest.Some?
    ensures var (x, y) := (a.pullRequest.value, b.pullRequest.value);
            var (p, q) := (SplitRepositoryName(x.repository), SplitRepositoryName(y.repository));
            EntryKey(a) == EntryKey(b) <==> x.number == y.number && LowerJs(p.0) == LowerJs(q.0) && LowerJs(p.1) == LowerJs(q.1)
  {
    hide LowerJs, Dec, SplitRepositoryName;
    var x, y := a.pullRequest.value, b.pullRequest.value;
    var p, q := SplitRepositoryName(x.repository), SplitRepositoryName(y.repository);
    NumberedSame(LowerJs(p.0) + "/" + LowerJs(p.1), x.number, LowerJs(q.0) + "/" + LowerJs(q.1), y.number);
    OwnerHasNoSlash(x.repository);
    OwnerHasNoSlash(y.repository);
    LowerAddsNo(p.0, '/');
    LowerAddsNo(q.0, '/');
    if LowerJs(p.0) + "/" + LowerJs(p.1) == LowerJs(q.0) + "/" + LowerJs(q.1) {
      CutUnique(LowerJs(p.0), LowerJs(p.1), LowerJs(q.0), LowerJs(q.1), '/');
    }
  }

  // ----- Choosing between two entries -----

  predicate IsCanonical(e: Entry) { LowerJs(TrimJs(e.eventType)) == "score.computed" }

  /** Lexicographic order of texts. */
  predicate After(a: string, b: string) {
    if a == "" then false
    else if b == "" then true
    else if a[0] != b[0] then a[0] > b[0]
    else After(a[1..], b[1..])
  }

  /** Later in time, or later as text when either date cannot be read. */
  predicate IsNewer(candidate: Stamp, baseline: Stamp) {
    if candidate.millis.Some? && baseline.millis.Some? then candidate.millis.value > baseline.millis.value
    else After(candidate.text, baseline.text)
  }

  predicate ShouldReplace(existing: Entry, candidate: Entry) {
    if IsCanonical(candidate) && !IsCanonical(existing) then true
    else if !IsCanonical(candidate) && IsCanonical(existing) then false
    else IsNewer(candidate.createdAt, existing.createdAt)
  }

  /** Lexicographic order means: at the first difference the greater character, or one text goes
      on where the other ends. */
  predicate GreaterAt(a: string, b: string, k: nat) {
    k < |a| && k <= |b| && a[..k] == b[..k] && (k == |b| || a[k] > b[k])
  }

  lemma {:induction false} AfterMeans(a: string, b: string)
    ensures After(a, b) <==> exists k: nat :: GreaterAt(a, b, k)
  {
    if a != "" && b != "" && a[0] == b[0] {
      AfterMeans(a[1..], b[1..]);
      forall k: nat
        ensures GreaterAt(a[1..], b[1..], k) <==> GreaterAt(a, b, k + 1)
      {
        assert k < |a| - 1 && k <= |b| - 1 ==> a[..k + 1] == [a[0]] + a[1..][..k] && b[..k + 1] == [b[0]] + b[1..][..k];
      }
      assert !GreaterAt(a, b, 0);
      if k: nat :| GreaterAt(a, b, k) {
        assert GreaterAt(a[1..], b[1..], k - 1);
      }
      if k: nat :| GreaterAt(a[1..], b[1..], k) {
        assert GreaterAt(a, b, k + 1);
      }
    } else if After(a, b) {
      assert GreaterAt(a, b, 0);
    } else if a != "" {
      assert forall k: nat :: k > 0 && k <= |a| && k <= |b| ==> a[..k][0] == a[0] && b[..k][0] == b[0];
    }
  }

  /** A computed score replaces any other event and is replaced by none; among entries of one
      kind the later one replaces, by time if both dates can be read, by text otherwise. */
  lemma ReplacesExactly(existing: Entry, candidate: Entry)
    ensures var was, becomes := LowerJs(TrimJs(existing.eventType)) == "score.computed", LowerJs(TrimJs(candidate.eventType)) == "score.computed";
            var a, b := candidate.createdAt, existing.createdAt;
            ShouldReplace(existing, candidate) <==>
              || (becomes && !was)
              || (becomes == was && if a.millis.Some? && b.millis.Some? then a.millis.value > b.millis.value
                                 else exists k: nat :: GreaterAt(a.text, b.text, k))
  {
    hide LowerJs, TrimJs, GreaterAt, After;
    AfterMeans(candidate.createdAt.text, existing.createdAt.text);
  }

  function StrongestEvidence(left: Option<Evidence>, right: Option<Evidence>): Option<Evidence> {
    if left == Some(Complete) || right == Some(Complete) then Some(Complete)
    else if left == Some(Partial) || right == Some(Partial) then Some(Partial)
    else if left.Some? then left else right
  }

  function Lines(lines: Option<seq<string>>): seq<string> { if lines.Some? then lines.value else [] }

  /** JavaScript's test of an optional text: absent and empty are both false. */
  function FirstText(existing: Option<string>, next: Option<string>): Option<string> {
    if (existing.None? || existing.value == "") && next.Some? && next.value != "" then next else existing
  }

  // ----- The fold -----

  function Fresh(e: Entry): Entry {
    e.(explanation := Some(Lines(e.explanation)), evidenceMissing := Some(Lines(e.evidenceMissing)))
  }

  ghost function Combine(existing: Entry, entry: Entry): Entry {
    var explanation := Some(U.Union(U.Identity, Lines(existing.explanation) + Lines(entry.explanation)));
    var missing := Some(U.Union(U.Identity, Lines(existing.evidenceMissing) + Lines(entry.evidenceMissing)));
    var state := StrongestEvidence(existing.evidenceState, entry.evidenceState);
    if ShouldReplace(existing, entry) then
      entry.(explanation := explanation, evidenceMissing := missing, evidenceState := state)
    else
      existing.(explanation := explanation, evidenceMissing := missing, evidenceState := state,
                scoreVersion := FirstText(existing.scoreVersion, entry.scoreVersion),
                formulaVersion := FirstText(existing.formulaVersion, entry.formulaVersion),
                category := FirstText(existing.category, entry.category),
                pullRequestID := FirstText(existing.pullRequestID, entry.pullRequestID),
                analysisID := FirstText(existing.analysisID, entry.analysisID))
  }

  /** A kept entry takes over what it lacks and keeps what it has. */
  lemma KeptIsFilledIn(existing: Entry, entry: Entry)
    requires !ShouldReplace(existing, entry)
    ensures var e := Combine(existing, entry);
            && Filled(e.category, existing.category, entry.category) && Filled(e.scoreVersion, existing.scoreVersion, entry.scoreVersion)
            && Filled(e.formulaVersion, existing.formulaVersion, entry.formulaVersion)
            && Filled(e.pullRequestID, existing.pullRequestID, entry.pullRequestID)
            && Filled(e.analysisID, existing.analysisID, entry.analysisID) && e.pullRequest == existing.pullRequest
  {
    hide U.Union, StrongestEvidence;
  }

  predicate Says(text: Option<string>) { text.Some? && text.value != "" }

  predicate Filled(result: Option<string>, existing: Option<string>, next: Option<string>) {
    (Says(existing) ==> result == existing) && (!Says(existing) && Says(next) ==> result == next) && (Says(result) ==> Says(existing) || Says(next))
  }

  /** A replacing entry keeps its own. */
  lemma ReplacingIsItself(existing: Entry, entry: Entry)
    requires ShouldReplace(existing, entry)
    ensures var e := Combine(existing, entry);
            e == entry.(explanation := e.explanation, evidenceMissing := e.evidenceMissing, evidenceState := e.evidenceState)
  {
    hide U.Union, StrongestEvidence;
  }

  ghost const RULES: Rules<Entry, string> := Rules(EntryKey, Fresh, Combine)

  lemma RulesLawful()
    ensures Lawful(RULES)
  {
    hide SplitRepositoryName, ShouldReplace, U.Union;
  }

  /** The entries about a pull request, in order. */
  function AboutPullRequests(entries: seq<Entry>): seq<Entry> {
    if entries == [] then []
    else
      var last := entries[|entries| - 1];
      AboutPullRequests(entries[..|entries| - 1]) + (if last.pullRequest.Some? then [last] else [])
  }

  ghost function Collapsed(entries: seq<Entry>): seq<Entry> { Dedup(RULES, AboutPullRequests(entries)) }

  method CollapseScoreHistoryByPullRequest(entries: seq<Entry>) returns (r: seq<Entry>)
    ensures r == Collapsed(entries)
  {
    hide EntryKey, ShouldReplace, StrongestEvidence, U.Union, Dedup, FirstText;
    RulesLawful();
    NothingMerged(RULES);
    var collapsedOrder: seq<string> := [];
    var collapsedByKey: map<string, Entry> := map[];
    for n := 0 to |entries|
      invariant Represents(RULES, Collapsed(entries[..n]), collapsedOrder, collapsedByKey)
    {
      var entry := entries[n];
      CollapsedStep(entries, n);
      if entry.pullRequest.Some? {
        var key := EntryKey(entry);
        RepresentsStep(RULES, Collapsed(entries[..n]), collapsedOrder, collapsedByKey, entry);
        if key !in collapsedByKey {
          var copy := entry.(explanation := Some(if entry.explanation.Some? then entry.explanation.value else []),
                             evidenceMissing := Some(if entry.evidenceMissing.Some? then entry.evidenceMissing.value else []));
          collapsedByKey := collapsedByKey[key := copy];
          collapsedOrder := collapsedOrder + [key];
        } else {
          var existing := collapsedByKey[key];
          var merged := MergeInto(existing, entry);
          collapsedByKey := collapsedByKey[key := merged];
        }
      }
    }
    assert entries[..|entries|] == entries;
    r := [];
    for i := 0 to |collapsedOrder|
      invariant r == Collapsed(entries)[..i]
    {
      r := r + [collapsedByKey[collapsedOrder[i]]];
    }
  }

  /** The loop body for a known key: replace the entry, or fill in what it lacks. */
  method MergeInto(existing: Entry, entry: Entry) returns (merged: Entry)
    ensures merged == Combine(existing, entry)
  {
    hide ShouldReplace, U.Union, EntryKey;
    var explanation := U.MergeUniqueStrings(Lines(existing.explanation), Lines(entry.explanation));
    var missing := U.MergeUniqueStrings(Lines(existing.evidenceMissing), Lines(entry.evidenceMissing));
    var state := StrongestEvidence(existing.evidenceState, entry.evidenceState);
    if ShouldReplace(existing, entry) {
      return entry.(explanation := Some(explanation), evidenceMissing := Some(missing), evidenceState := state);
    }
    merged := existing.(explanation := Some(explanation), evidenceMissing := Some(missing), evidenceState := state);
    merged := merged.(scoreVersion := FirstText(merged.scoreVersion, entry.scoreVersion));
    merged := merged.(formulaVersion := FirstText(merged.formulaVersion, entry.formulaVersion));
    merged := merged.(category := FirstText(merged.category, entry.category));
    merged := merged.(pullRequestID := FirstText(merged.pullRequestID, entry.pullRequestID));
    merged := merged.(analysisID := FirstText(merged.analysisID, entry.analysisID));
  }

  lemma CollapsedStep(entries: seq<Entry>, n: nat)
    requires n < |entries|
    ensures Collapsed(entries[..n + 1])
            == if entries[n].pullRequest.Some? then Step(Collapsed(entries[..n]), RULES, entries[n]) else Collapsed(entries[..n])
  {
    hide Step, EntryKey, Fresh, Combine;
    assert entries[..n + 1][..n] == entries[..n];
    var before, after := AboutPullRequests(entries[..n]), AboutPullRequests(entries[..n + 1]);
    if entries[n].pullRequest.Some? {
      assert after == before + [entries[n]];
      DedupStep(RULES, after, |before|);
      assert after[..|before|] == before && after[..|before| + 1] == after;
    } else {
      assert after == before;
    }
  }

  // ----- What an entry says about its pull request -----

  function DateRank(s: Stamp): int { if s.millis.Some? then s.millis.value else 0 }

  /** A computed score beats any other event; among equals the newer one wins. */
  predicate Supersedes(a: Entry, b: Entry) {
    if IsCanonical(a) != IsCanonical(b) then IsCanonical(a) else DateRank(a.createdAt) > DateRank(b.createdAt)
  }

  lemma SupersedesRanked()
    ensures Ranked(Supersedes)
  {
    hide IsCanonical, DateRank;
  }

  /** Event, experience points and time are those of one entry, unchanged. */
  predicate SameEvent(e: Entry, row: Entry) {
    e.eventID == row.eventID && e.eventType == row.eventType && e.deltaXP == row.deltaXP && e.createdAt == row.createdAt
  }

  lemma SameEventSameChoice(e: Entry, row: Entry, candidate: Entry, canonical: bool)
    requires SameEvent(e, row)
    requires IsCanonical(row) == canonical ==> row.createdAt.millis.Some?
    requires IsCanonical(candidate) == canonical ==> candidate.createdAt.millis.Some?
    requires IsCanonical(row) || IsCanonical(candidate) ==> canonical
    ensures IsCanonical(e) == IsCanonical(row)
    ensures IsCanonical(row) == canonical || IsCanonical(candidate) == canonical ==> (ShouldReplace(e, candidate) <==> Supersedes(candidate, row))
    ensures IsCanonical(row) != IsCanonical(candidate) ==> (ShouldReplace(e, candidate) <==> IsCanonical(candidate))
  {
    hide TrimJs, LowerJs, After;
  }

  /** The first best entry is the newest `score.computed` entry, listed first among equals;
      without such entries, the newest of all. */
  lemma FirstBestIsNewest(group: seq<Entry>, i: nat)
    requires FirstBest(Supersedes, group, i)
    ensures (exists m :: 0 <= m < |group| && IsCanonical(group[m])) <==> IsCanonical(group[i])
    ensures forall m :: 0 <= m < |group| && IsCanonical(group[m]) == IsCanonical(group[i]) ==>
              DateRank(group[m].createdAt) <= DateRank(group[i].createdAt) &&
              (m < i ==> DateRank(group[m].createdAt) < DateRank(group[i].createdAt))
  {
    hide IsCanonical, DateRank;
  }

  predicate Shows(group: seq<Entry>, evidence: Evidence) {
    exists m :: 0 <= m < |group| && group[m].evidenceState == Some(evidence)
  }

  function Evidences(group: seq<Entry>): Option<Evidence> {
    if Shows(group, Complete) then Some(Complete) else if Shows(group, Partial) then Some(Partial) else None
  }

  /** The evidence state of a merged group is the strongest one in it. */
  lemma {:induction false} EvidenceOfGroup(group: seq<Entry>)
    requires group != []
    ensures Merged(RULES, group).evidenceState == Evidences(group)
  {
    hide U.Union, ShouldReplace, EntryKey, Shows;
    var n := |group| - 1;
    ShowsOne(group[n]);
    var init := group[..n];
    assert group == init + [group[n]];
    EvidenceGrows(init, group[n]);
    if n > 0 {
      EvidenceOfGroup(init);
    } else {
      assert Evidences(init) == None by { ShowsNothing(); }
    }
  }

  lemma ShowsNothing()
    ensures Evidences([]) == None
  {
  }

  lemma ShowsOne(e: Entry)
    ensures Evidences([e]) == e.evidenceState
  {
    assert [e][0] == e;
    match e.evidenceState {
      case None =>
      case Some(Complete) => assert Shows([e], Complete);
      case Some(Partial) => assert Shows([e], Partial);
    }
  }

  lemma ShowsMore(init: seq<Entry>, e: Entry, evidence: Evidence)
    ensures Shows(init + [e], evidence) <==> Shows(init, evidence) || e.evidenceState == Some(evidence)
  {
    var all := init + [e];
    assert all[|init|] == e;
    if Shows(init, evidence) {
      var m :| 0 <= m < |init| && init[m].evidenceState == Some(evidence);
      assert all[m] == init[m];
    }
  }

  lemma EvidenceGrows(init: seq<Entry>, e: Entry)
    ensures Evidences(init + [e]) == StrongestEvidence(Evidences(init), e.evidenceState)
  {
    hide Shows;
    ShowsMore(init, e, Complete);
    ShowsMore(init, e, Partial);
    match e.evidenceState {
      case None =>
      case Some(Complete) =>
      case Some(Partial) =>
    }
  }

  /** The two fields that collect lines. */
  datatype Field = Explanation | Missing

  function LinesOf(e: Entry, field: Field): Option<seq<string>> {
    if field.Explanation? then e.explanation else e.evidenceMissing
  }

  function Collected(group: seq<Entry>, field: Field): (r: seq<seq<string>>)
    ensures |r| == |group| && forall i :: 0 <= i < |r| ==> r[i] == Lines(LinesOf(group[i], field))
  {
    seq(|group|, i requires 0 <= i < |group| => Lines(LinesOf(group[i], field)))
  }

  /** What merging one more entry makes of the lines. */
  lemma LinesStep(group: seq<Entry>, field: Field)
    requires |group| >= 2
    ensures var n := |group| - 1;
            LinesOf(Merged(RULES, group), field)
            == Some(U.Union(U.Identity, Lines(LinesOf(Merged(RULES, group[..n]), field)) + Lines(LinesOf(group[n], field))))
  {
    hide U.Union, ShouldReplace, EntryKey, StrongestEvidence, Lines;
  }

  lemma CollectedGrow(group: seq<Entry>, field: Field)
    requires group != []
    ensures var n := |group| - 1;
            U.Concat(Collected(group, field)) == U.Concat(Collected(group[..n], field)) + Lines(LinesOf(group[n], field))
  {
    assert Collected(group, field)[..|group| - 1] == Collected(group[..|group| - 1], field);
  }

  lemma OneEntryLines(e: Entry, field: Field)
    ensures Lines(LinesOf(Merged(RULES, [e]), field)) == Lines(LinesOf(e, field)) == U.Concat(Collected([e], field))
  {
    hide EntryKey, Combine;
    CollectedGrow([e], field);
    assert Collected([e][..0], field) == [];
  }

  /** The lines of a group of several entries are the ordered union of all their lines. */
  lemma {:induction false} LinesOfGroup(group: seq<Entry>, field: Field)
    requires |group| >= 2
    ensures LinesOf(Merged(RULES, group), field) == Some(U.Union(U.Identity, U.Concat(Collected(group, field))))
  {
    hide Merged, U.Union, U.Concat, Collected, LinesOf;
    var n := |group| - 1;
    var init := group[..n];
    LinesStep(group, field);
    CollectedGrow(group, field);
    if n == 1 {
      assert init == [group[0]];
      OneEntryLines(group[0], field);
    } else {
      LinesOfGroup(init, field);
      U.UnionIncremental(U.Identity, U.Concat(Collected(init, field)), Lines(LinesOf(group[n], field)));
    }
  }

  predicate HasCanonical(group: seq<Entry>) { exists m :: 0 <= m < |group| && IsCanonical(group[m]) }

  predicate KeepsCanonical(e: Entry, group: seq<Entry>, i: nat) {
    i < |group| && SameEvent(e, group[i]) && (IsCanonical(group[i]) <==> HasCanonical(group))
  }

  /** Whatever the dates, the event is one of the group's, a computed score if there is one. */
  lemma {:induction false} CanonicalOfGroup(group: seq<Entry>) returns (i: nat)
    requires group != []
    ensures KeepsCanonical(Merged(RULES, group), group, i)
  {
    hide U.Union, EntryKey, StrongestEvidence, IsNewer, TrimJs, LowerJs, FirstText;
    var n := |group| - 1;
    if n == 0 {
      i := 0;
    } else {
      var init := group[..n];
      i := CanonicalOfGroup(init);
      assert group == init + [group[n]];
      HasCanonicalGrows(init, group[n]);
      i := if ShouldReplace(Merged(RULES, init), group[n]) then n else i;
    }
  }

  lemma HasCanonicalGrows(init: seq<Entry>, e: Entry)
    ensures HasCanonical(init + [e]) <==> HasCanonical(init) || IsCanonical(e)
  {
    hide IsCanonical;
    var all := init + [e];
    assert all[|init|] == e;
    if HasCanonical(init) {
      var m :| 0 <= m < |init| && IsCanonical(init[m]);
      assert all[m] == init[m];
    }
  }

  /** The dates that matter can be read: those of the computed scores, or all of them when
      there is no computed score. */
  predicate ClassDated(group: seq<Entry>) { DatedIn(group, HasCanonical(group)) }

  predicate DatedIn(group: seq<Entry>, canonical: bool) {
    forall i :: 0 <= i < |group| && IsCanonical(group[i]) == canonical ==> group[i].createdAt.millis.Some?
  }

  lemma BestStep(init: seq<Entry>, i: nat, x: Entry)
    requires FirstBest(Supersedes, init, i)
    ensures i < |init| && FirstBest(Supersedes, init + [x], if Supersedes(x, init[i]) then |init| else i)
  {
    FirstBestInside(init, i);
    hide Supersedes, FirstBest;
    SupersedesRanked();
    FirstBestStep(Supersedes, init, i, x);
  }

  lemma FirstBestInside(group: seq<Entry>, i: nat)
    requires FirstBest(Supersedes, group, i)
    ensures i < |group|
  {
  }

  /** Dates decide among the entries of the class that wins in the end. */
  lemma {:induction false} SurvivorBelow(group: seq<Entry>, canonical: bool) returns (i: nat)
    requires group != [] && DatedIn(group, canonical) && (HasCanonical(group) ==> canonical)
    ensures KeepsCanonical(Merged(RULES, group), group, i)
    ensures IsCanonical(group[i]) == canonical ==> FirstBest(Supersedes, group, i)
  {
    hide U.Union, IsCanonical, EntryKey, StrongestEvidence, After, FirstText, HasCanonical;
    var n := |group| - 1;
    var init := group[..n];
    assert group == init + [group[n]];
    HasCanonicalGrows(init, group[n]);
    if n == 0 {
      i := 0;
      NoneCanonical();
    } else {
      i := SurvivorBelow(init, canonical);
      SameEventSameChoice(Merged(RULES, init), init[i], group[n], canonical);
      if IsCanonical(init[i]) == canonical {
        BestStep(init, i, group[n]);
      } else if IsCanonical(group[n]) == canonical {
        OnlyOneOfClass(init, group[n]);
      }
      i := if ShouldReplace(Merged(RULES, init), group[n]) then n else i;
    }
  }

  lemma NoneCanonical()
    ensures !HasCanonical([])
  {
  }

  /** The first computed score of a group is its best entry. */
  lemma OnlyOneOfClass(init: seq<Entry>, e: Entry)
    requires IsCanonical(e) && !HasCanonical(init)
    ensures FirstBest(Supersedes, init + [e], |init|)
  {
    hide IsCanonical, DateRank;
  }

  lemma SurvivorOfGroup(group: seq<Entry>) returns (i: nat)
    requires group != [] && ClassDated(group)
    ensures FirstBest(Supersedes, group, i) && SameEvent(Merged(RULES, group), group[i])
  {
    hide FirstBest, SameEvent, HasCanonical, Merged, DatedIn;
    i := SurvivorBelow(group, HasCanonical(group));
  }

  /** The declarative meaning of one collapsed entry. */
  ghost predicate Summarizes(e: Entry, group: seq<Entry>) {
    && group != []
    && e.evidenceState == Evidences(group)
    && (|group| == 1 ==> e == group[0].(explanation := e.explanation, evidenceMissing := e.evidenceMissing)
                         && e.explanation == Some(if group[0].explanation.Some? then group[0].explanation.value else [])
                         && e.evidenceMissing == Some(if group[0].evidenceMissing.Some? then group[0].evidenceMissing.value else []))
    && (|group| >= 2 ==>
          && e.explanation == Some(U.Union(U.Identity, U.Concat(Collected(group, Explanation))))
          && e.evidenceMissing == Some(U.Union(U.Identity, U.Concat(Collected(group, Missing)))))
    && (exists i: nat :: KeepsCanonical(e, group, i))
    && (ClassDated(group) ==> exists i: nat :: FirstBest(Supersedes, group, i) && SameEvent(e, group[i]))
  }

  lemma OneEntryKept(e: Entry)
    ensures Merged(RULES, [e]) == Fresh(e)
  {
  }

  lemma GroupSummarized(group: seq<Entry>)
    requires group != []
    ensures Summarizes(Merged(RULES, group), group)
  {
    hide U.Union, FirstBest, SameEvent, Evidences, Merged, KeepsCanonical;
    EvidenceOfGroup(group);
    var c := CanonicalOfGroup(group);
    if |group| == 1 {
      OneEntryKept(group[0]);
      assert group == [group[0]];
    } else {
      LinesOfGroup(group, Explanation);
      LinesOfGroup(group, Missing);
    }
    if ClassDated(group) {
      var i := SurvivorOfGroup(group);
    }
  }

  /** One entry per pull request, in order of first appearance. Its event, points and time are
      those of the first best entry of that pull request, never a sum; its evidence is the
      strongest of the group; its explanation is the ordered union of the group's lines. */
  lemma CollapseMeaning(entries: seq<Entry>)
    ensures var r := Collapsed(entries);
            && Distinct(RULES, r) && Keys(RULES, r) == FirstSeen(Keys(RULES, AboutPullRequests(entries)))
            && forall i :: 0 <= i < |r| ==> Summarizes(r[i], Group(RULES, AboutPullRequests(entries), RULES.key(r[i])))
  {
    hide Dedup, Summarizes, Group, EntryKey, Combine;
    RulesLawful();
    var rows := AboutPullRequests(entries);
    Meaning(RULES, rows);
    forall i | 0 <= i < |Collapsed(entries)|
      ensures Summarizes(Collapsed(entries)[i], Group(RULES, rows, RULES.key(Collapsed(entries)[i])))
    {
      GroupSummarized(Group(RULES, rows, RULES.key(Collapsed(entries)[i])));
    }
  }

  predicate AboutTheSame(a: Entry, b: Entry) {
    && a.pullRequest.Some? && b.pullRequest.Some? && a.pullRequest.value.number == b.pullRequest.value.number
    && var p := SplitRepositoryName(a.pullRequest.value.repository);
       var q := SplitRepositoryName(b.pullRequest.value.repository);
       LowerJs(p.0) == LowerJs(q.0) && LowerJs(p.1) == LowerJs(q.1)
  }

  lemma SameKeySamePullRequest(a: Entry, b: Entry)
    requires a.pullRequest.Some? && b.pullRequest.Some?
    ensures RULES.key(a) == RULES.key(b) <==> AboutTheSame(a, b)
  {
    SamePullRequest(a, b);
  }

  /** No two entries of the result are about the same pull request; every entry about a pull
      request is accounted for; and the group of an entry is everything about its pull request. */
  lemma OneEntryPerPullRequest(entries: seq<Entry>)
    ensures var r, rows := Collapsed(entries), AboutPullRequests(entries);
            && (forall i, j :: 0 <= i < j < |r| ==> !AboutTheSame(r[i], r[j]))
            && (forall e :: e in entries && e.pullRequest.Some? ==> exists i :: 0 <= i < |r| && AboutTheSame(r[i], e))
            && (forall i, e :: 0 <= i < |r| ==>
                  (e in Group(RULES, rows, RULES.key(r[i])) <==> e in entries && AboutTheSame(r[i], e)))
  {
    hide Dedup, Group, EntryKey, AboutTheSame, Combine, Fresh;
    RulesLawful();
    var r, rows := Collapsed(entries), AboutPullRequests(entries);
    Partition(RULES, rows);
    CollapsedAbout(entries);
    AboutExactly(entries);
    forall i, j | 0 <= i < j < |r|
      ensures !AboutTheSame(r[i], r[j])
    {
      SameKeySamePullRequest(r[i], r[j]);
    }
    forall e | e in entries && e.pullRequest.Some?
      ensures exists i :: 0 <= i < |r| && AboutTheSame(r[i], e)
    {
      var i :| 0 <= i < |r| && RULES.key(r[i]) == RULES.key(e);
      SameKeySamePullRequest(r[i], e);
    }
    forall i, e | 0 <= i < |r|
      ensures e in Group(RULES, rows, RULES.key(r[i])) <==> e in entries && AboutTheSame(r[i], e)
    {
      SameNeedsPullRequest(r[i], e);
      if e in rows {
        SameKeySamePullRequest(r[i], e);
      }
    }
  }

  lemma SameNeedsPullRequest(a: Entry, b: Entry)
    ensures AboutTheSame(a, b) ==> b.pullRequest.Some?
  {
  }

  lemma {:induction false} AboutExactly(entries: seq<Entry>)
    ensures forall e :: e in AboutPullRequests(entries) <==> e in entries && e.pullRequest.Some?
  {
    if entries != [] {
      var n := |entries| - 1;
      AboutExactly(entries[..n]);
      assert entries == entries[..n] + [entries[n]];
    }
  }

  // ----- Collapsing in portions -----

  lemma {:induction false} AboutAppend(xs: seq<Entry>, ys: seq<Entry>)
    ensures AboutPullRequests(xs + ys) == AboutPullRequests(xs) + AboutPullRequests(ys)
  {
    if ys == [] {
      assert xs + ys == xs;
    } else {
      AboutAppend(xs, ys[..|ys| - 1]);
      assert (xs + ys)[..|xs + ys| - 1] == xs + ys[..|ys| - 1];
    }
  }

  lemma {:induction false} AboutAll(entries: seq<Entry>)
    requires forall i :: 0 <= i < |entries| ==> entries[i].pullRequest.Some?
    ensures AboutPullRequests(entries) == entries
  {
    if entries != [] {
      AboutAll(entries[..|entries| - 1]);
    }
  }

  lemma {:induction false} CollapsedAbout(entries: seq<Entry>)
    ensures forall i :: 0 <= i < |Collapsed(entries)| ==> Collapsed(entries)[i].pullRequest.Some?
  {
    hide EntryKey, ShouldReplace, StrongestEvidence, U.Union, Dedup;
    if entries == [] {
      NothingMerged(RULES);
    } else {
      var n := |entries| - 1;
      CollapsedAbout(entries[..n]);
      CollapsedStep(entries, n);
      assert entries[..n + 1] == entries;
    }
  }

  /** Collapsing what was collapsed together with new entries collapses everything. */
  lemma ScoreHistoryIncremental(xs: seq<Entry>, ys: seq<Entry>)
    ensures Collapsed(Collapsed(xs) + ys) == Collapsed(xs + ys)
    ensures Collapsed(Collapsed(xs)) == Collapsed(xs)
  {
    hide Dedup, Lawful, EntryKey, Combine;
    RulesLawful();
    CollapsedAbout(xs);
    AboutAll(Collapsed(xs));
    AboutAppend(Collapsed(xs), ys);
    AboutAppend(xs, ys);
    Incremental(RULES, AboutPullRequests(xs), AboutPullRequests(ys));
  }
}
