/** Contribution rows deduplicated by pull request: the row worth most survives and carries
    the evidence signals of all of them. */
module Contributions {
  import opened Common
  import opened Text
  import opened KeyedFold
  import U = UniqueStrings

  /** `details` stands for the fields that the deduplication only carries along. */
  datatype Contribution = Contribution(
    id: string, owner: string, repo: string, number: int, xpEarned: real, mergedAt: Stamp,
    aiSummary: string, evidenceSignals: seq<string>, details: string)

  function ContributionKey(row: Contribution): string {
    LowerJs(row.owner) + "/" + LowerJs(row.repo) + "#" + Dec(row.number)
  }

  /** Two contributions have the same key exactly when their numbers are equal and their
      repositories are written alike up to case. */
  lemma SamePullRequest(a: Contribution, b: Contribution)
    ensures ContributionKey(a) == ContributionKey(b) <==>
              a.number == b.number && LowerJs(a.owner) + "/" + LowerJs(a.repo) == LowerJs(b.owner) + "/" + LowerJs(b.repo)
    ensures '/' !in a.owner && '/' !in b.owner ==>
              (ContributionKey(a) == ContributionKey(b) <==>
                 a.number == b.number && LowerJs(a.owner) == LowerJs(b.owner) && LowerJs(a.repo) == LowerJs(b.repo))
  {
    hide LowerJs, Dec;
    NumberedSame(LowerJs(a.owner) + "/" + LowerJs(a.repo), a.number, LowerJs(b.owner) + "/" + LowerJs(b.repo), b.number);
    if '/' !in a.owner && '/' !in b.owner && ContributionKey(a) == ContributionKey(b) {
      LowerAddsNo(a.owner, '/');
      LowerAddsNo(b.owner, '/');
      CutUnique(LowerJs(a.owner), LowerJs(a.repo), LowerJs(b.owner), LowerJs(b.repo), '/');
    }
  }

  /** Later in time; a date that cannot be parsed compares with nothing. */
  predicate Later(a: Stamp, b: Stamp) { a.millis.Some? && b.millis.Some? && a.millis.value > b.millis.value }

  predicate Outranks(row: Contribution, current: Contribution) {
    row.xpEarned > current.xpEarned || (row.xpEarned == current.xpEarned && Later(row.mergedAt, current.mergedAt))
  }

  ghost function Fresh(row: Contribution): Contribution {
    row.(evidenceSignals := U.Union(LowerJs, row.evidenceSignals))
  }

  ghost function Combine(current: Contribution, row: Contribution): Contribution {
    var signals := U.Union(LowerJs, current.evidenceSignals + row.evidenceSignals);
    if Outranks(row, current) then
      row.(aiSummary := if TrimJs(row.aiSummary) != "" then row.aiSummary else current.aiSummary, evidenceSignals := signals)
    else
      current.(evidenceSignals := signals)
  }

  ghost const RULES: Rules<Contribution, string> := Rules(ContributionKey, Fresh, Combine)

  lemma RulesLawful()
    ensures Lawful(RULES)
  {
    hide LowerJs, Dec, TrimJs, Outranks, U.Union;
    forall x
      ensures RULES.key(RULES.init(x)) == RULES.key(x) && Settled(RULES, RULES.init(x))
    {
      U.UnionIncremental(LowerJs, x.evidenceSignals, []);
    }
    forall a, x | RULES.key(a) == RULES.key(x)
      ensures RULES.key(RULES.merge(a, x)) == RULES.key(a) && Settled(RULES, RULES.merge(a, x))
    {
      U.UnionIncremental(LowerJs, a.evidenceSignals + x.evidenceSignals, []);
    }
  }

  /** A JavaScript map iterates in insertion order, kept here beside it. */
  method DeduplicateContributionsByPullRequest(rows: seq<Contribution>) returns (r: seq<Contribution>)
    ensures r == Dedup(RULES, rows)
  {
    hide ContributionKey, Combine, U.Union, Step, Lawful;
    RulesLawful();
    var order: seq<string> := [];
    var byPullRequest: map<string, Contribution> := map[];
    for n := 0 to |rows|
      invariant Represents(RULES, Dedup(RULES, rows[..n]), order, byPullRequest)
    {
      var row := rows[n];
      var key := ContributionKey(row);
      DedupStep(RULES, rows, n);
      RepresentsStep(RULES, Dedup(RULES, rows[..n]), order, byPullRequest, row);
      if key !in byPullRequest {
        var signals := U.UniqueEvidenceSignals(row.evidenceSignals);
        byPullRequest := byPullRequest[key := row.(evidenceSignals := signals)];
        order := order + [key];
      } else {
        var current := byPullRequest[key];
        var merged := MergeInto(current, row);
        byPullRequest := byPullRequest[key := merged];
      }
    }
    assert rows[..|rows|] == rows;
    r := [];
    for i := 0 to |order|
      invariant r == Dedup(RULES, rows)[..i]
    {
      r := r + [byPullRequest[order[i]]];
    }
  }

  /** The loop body for a known key. */
  method MergeInto(current: Contribution, row: Contribution) returns (merged: Contribution)
    ensures merged == Combine(current, row)
  {
    hide Outranks, TrimJs, U.Union;
    var signals := U.UniqueEvidenceSignals(current.evidenceSignals + row.evidenceSignals);
    if !Outranks(row, current) {
      return current.(evidenceSignals := signals);
    }
    var summary := if TrimJs(row.aiSummary) != "" then row.aiSummary else current.aiSummary;
    return row.(aiSummary := summary, evidenceSignals := signals);
  }

  // ----- What survives -----

  function SignalLists(rows: seq<Contribution>): (r: seq<seq<string>>)
    ensures |r| == |rows| && forall i :: 0 <= i < |r| ==> r[i] == rows[i].evidenceSignals
  {
    seq(|rows|, i requires 0 <= i < |rows| => rows[i].evidenceSignals)
  }

  /** The signals of a merged group are the union of the signals of all its rows. */
  lemma {:induction false} SignalsOfGroup(group: seq<Contribution>)
    requires group != []
    ensures Merged(RULES, group).evidenceSignals == U.Union(LowerJs, U.Concat(SignalLists(group)))
  {
    hide U.Union, Outranks, TrimJs;
    var n := |group| - 1;
    var last := group[n].evidenceSignals;
    assert SignalLists(group)[..n] == SignalLists(group[..n]);
    if n == 0 {
      assert U.Concat(SignalLists(group)) == [] + last == last;
    } else {
      SignalsOfGroup(group[..n]);
      U.UnionIncremental(LowerJs, U.Concat(SignalLists(group[..n])), last);
    }
  }

  /** Worth more, or worth the same and merged later; undated rows count as oldest, so that
      the comparison is defined everywhere. */
  predicate WorthMore(a: Contribution, b: Contribution) {
    a.xpEarned > b.xpEarned || (a.xpEarned == b.xpEarned && DateRank(a.mergedAt) > DateRank(b.mergedAt))
  }

  function DateRank(s: Stamp): int { if s.millis.Some? then s.millis.value else 0 }

  /** The identity, the score and the date of a merged group are those of one of its rows. */
  predicate SameRow(entry: Contribution, row: Contribution) {
    entry == row.(aiSummary := entry.aiSummary, evidenceSignals := entry.evidenceSignals)
  }

  predicate EarnsMost(group: seq<Contribution>, i: nat) {
    i < |group| && forall m :: 0 <= m < |group| ==> group[m].xpEarned <= group[i].xpEarned
  }

  /** Whatever the dates, it is a row that earned most. */
  lemma {:induction false} SurvivorEarnsMost(group: seq<Contribution>) returns (i: nat)
    requires group != []
    ensures EarnsMost(group, i) && SameRow(Merged(RULES, group), group[i])
  {
    hide U.Union, TrimJs, Later;
    var n := |group| - 1;
    if n == 0 {
      i := 0;
    } else {
      i := SurvivorEarnsMost(group[..n]);
      i := if Outranks(group[n], Merged(RULES, group[..n])) then n else i;
    }
  }

  /** The dates that matter can be read: those of the rows that earned most. */
  predicate TopDated(group: seq<Contribution>) {
    forall i :: 0 <= i < |group| && EarnsMost(group, i) ==> group[i].mergedAt.millis.Some?
  }

  /** Where `top` bounds the points, dates decide among the rows that reach it. */
  predicate DatedAt(group: seq<Contribution>, top: real) {
    forall i :: 0 <= i < |group| ==> group[i].xpEarned <= top && (group[i].xpEarned == top ==> group[i].mergedAt.millis.Some?)
  }

  lemma TopStep(init: seq<Contribution>, i: nat, x: Contribution, top: real)
    requires DatedAt(init + [x], top) && EarnsMost(init, i) && (init[i].xpEarned == top ==> FirstBest(WorthMore, init, i))
    ensures var all, k := init + [x], if Outranks(x, init[i]) then |init| else i;
            EarnsMost(all, k) && (all[k].xpEarned == top ==> FirstBest(WorthMore, all, k))
  {
    var all := init + [x];
    assert all[|init|] == x && forall m :: 0 <= m < |init| ==> all[m] == init[m];
    assert init[i].xpEarned == top ==> all[i].mergedAt.millis.Some?;
    assert x.xpEarned <= top && (x.xpEarned == top ==> x.mergedAt.millis.Some?);
  }

  lemma CombineKeepsRow(current: Contribution, kept: Contribution, row: Contribution)
    requires SameRow(current, kept)
    ensures Outranks(row, current) <==> Outranks(row, kept)
    ensures SameRow(Combine(current, row), if Outranks(row, kept) then row else kept)
  {
    hide U.Union, TrimJs, Later;
  }

  lemma OneRowIsBest(row: Contribution)
    ensures FirstBest(WorthMore, [row], 0) && EarnsMost([row], 0) && SameRow(Merged(RULES, [row]), row)
  {
    hide U.Union;
  }

  lemma DatedPrefix(init: seq<Contribution>, x: Contribution, top: real)
    requires DatedAt(init + [x], top)
    ensures DatedAt(init, top)
  {
    var all := init + [x];
    assert forall i :: 0 <= i < |init| ==> init[i] == all[i];
  }

  lemma MergedLast(init: seq<Contribution>, x: Contribution)
    requires init != []
    ensures Merged(RULES, init + [x]) == Combine(Merged(RULES, init), x)
  {
    hide Combine;
    MergedGrows(RULES, init, x);
  }

  lemma {:induction false} SurvivorBelow(group: seq<Contribution>, top: real) returns (i: nat)
    requires group != [] && DatedAt(group, top)
    ensures EarnsMost(group, i) && SameRow(Merged(RULES, group), group[i])
    ensures group[i].xpEarned == top ==> FirstBest(WorthMore, group, i)
  {
    EarnsMostInside(group);
    hide Merged, Combine, Outranks, WorthMore, DatedAt, SameRow, EarnsMost, FirstBest;
    var n := |group| - 1;
    if n == 0 {
      i := 0;
      OneRowIsBest(group[0]);
      assert group == [group[0]];
    } else {
      var init, last := group[..n], group[n];
      assert group == init + [last];
      DatedPrefix(init, last, top);
      i := SurvivorBelow(init, top);
      EarnsMostInside(init);
      TopStep(init, i, last, top);
      MergedLast(init, last);
      CombineKeepsRow(Merged(RULES, init), init[i], last);
      i := if Outranks(last, init[i]) then n else i;
    }
  }

  lemma EarnsMostInside(group: seq<Contribution>)
    ensures forall i: nat :: EarnsMost(group, i) ==> i < |group|
  {
  }

  /** When they can, it is the first row among those worth most. */
  lemma SurvivorOfGroup(group: seq<Contribution>) returns (i: nat)
    requires group != [] && TopDated(group)
    ensures FirstBest(WorthMore, group, i) && SameRow(Merged(RULES, group), group[i])
  {
    hide Merged, WorthMore, SameRow;
    var best := SurvivorEarnsMost(group);
    i := SurvivorBelow(group, group[best].xpEarned);
  }

  /** One row per pull request, in order of first appearance, carrying the case-insensitive
      ordered union of the signals of all the rows of that pull request. */
  lemma SignalsAreUnions(rows: seq<Contribution>)
    ensures var r := Dedup(RULES, rows);
            && Distinct(RULES, r) && Keys(RULES, r) == FirstSeen(Keys(RULES, rows))
            && forall i :: 0 <= i < |r| ==>
                 r[i].evidenceSignals == U.Union(LowerJs, U.Concat(SignalLists(Group(RULES, rows, RULES.key(r[i])))))
  {
    hide Dedup, Group, U.Union, U.Concat;
    RulesLawful();
    Meaning(RULES, rows);
    var r := Dedup(RULES, rows);
    forall i | 0 <= i < |r|
      ensures r[i].evidenceSignals == U.Union(LowerJs, U.Concat(SignalLists(Group(RULES, rows, RULES.key(r[i])))))
    {
      SignalsOfGroup(Group(RULES, rows, RULES.key(r[i])));
    }
  }

  /** The surviving row of each pull request earned most of its rows. */
  lemma SurvivorsEarnMost(rows: seq<Contribution>, i: nat) returns (m: nat)
    requires i < |Dedup(RULES, rows)|
    ensures var entry := Dedup(RULES, rows)[i];
            var group := Group(RULES, rows, RULES.key(entry));
            EarnsMost(group, m) && SameRow(entry, group[m])
  {
    hide Dedup;
    RulesLawful();
    Meaning(RULES, rows);
    m := SurvivorEarnsMost(Group(RULES, rows, RULES.key(Dedup(RULES, rows)[i])));
  }

  /** When the rows of the pull request that earned most have readable dates, it is the first
      of those that earned most and, among them, were merged last. */
  lemma SurvivorsAreWorthMost(rows: seq<Contribution>, i: nat) returns (m: nat)
    requires i < |Dedup(RULES, rows)| && TopDated(Group(RULES, rows, RULES.key(Dedup(RULES, rows)[i])))
    ensures var entry := Dedup(RULES, rows)[i];
            var group := Group(RULES, rows, RULES.key(entry));
            FirstBest(WorthMore, group, m) && SameRow(entry, group[m])
  {
    hide Dedup, FirstBest, WorthMore, TopDated;
    RulesLawful();
    Meaning(RULES, rows);
    m := SurvivorOfGroup(Group(RULES, rows, RULES.key(Dedup(RULES, rows)[i])));
  }

  predicate SameRequest(a: Contribution, b: Contribution) {
    a.number == b.number && LowerJs(a.owner) + "/" + LowerJs(a.repo) == LowerJs(b.owner) + "/" + LowerJs(b.repo)
  }

  /** No two rows of the result are about the same pull request, every row is accounted for, and
      the group of a row is everything about its pull request. */
  lemma OneRowPerPullRequest(rows: seq<Contribution>)
    ensures var r := Dedup(RULES, rows);
            && (forall i, j :: 0 <= i < j < |r| ==> !SameRequest(r[i], r[j]))
            && (forall x :: x in rows ==> exists i :: 0 <= i < |r| && SameRequest(r[i], x))
            && (forall i, x :: 0 <= i < |r| ==> (x in Group(RULES, rows, RULES.key(r[i])) <==> x in rows && SameRequest(r[i], x)))
  {
    hide Dedup, Group, SameRequest;
    RulesLawful();
    Partition(RULES, rows);
    forall a, b
      ensures RULES.key(a) == RULES.key(b) <==> SameRequest(a, b)
    {
      SameKeySameRequest(a, b);
    }
  }

  lemma SameKeySameRequest(a: Contribution, b: Contribution)
    ensures RULES.key(a) == RULES.key(b) <==> SameRequest(a, b)
  {
    SamePullRequest(a, b);
  }

  /** A pull request with one row keeps it, its signals united. */
  lemma SingleRow(row: Contribution)
    ensures Merged(RULES, [row]) == row.(evidenceSignals := U.Firsts(LowerJs, row.evidenceSignals))
  {
    hide U.Firsts, U.Union;
    U.UnionMeaning(LowerJs, row.evidenceSignals);
  }

  /** A replacing row keeps its own summary unless it is blank; a kept row keeps its own. */
  lemma SummaryCarried(current: Contribution, row: Contribution)
    ensures var wins := row.xpEarned > current.xpEarned ||
                            (row.xpEarned == current.xpEarned && row.mergedAt.millis.Some? && current.mergedAt.millis.Some?
                             && row.mergedAt.millis.value > current.mergedAt.millis.value);
            && Combine(current, row).aiSummary == (if wins && TrimJs(row.aiSummary) != "" then row.aiSummary else current.aiSummary)
            && SameRow(Combine(current, row), if wins then row else current)
  {
    hide U.Union, TrimJs;
  }

  /** Deduplicating in portions is deduplicating at once. */
  lemma ContributionsIncremental(xs: seq<Contribution>, ys: seq<Contribution>)
    ensures Dedup(RULES, Dedup(RULES, xs) + ys) == Dedup(RULES, xs + ys)
    ensures Dedup(RULES, Dedup(RULES, xs)) == Dedup(RULES, xs)
  {
    RulesLawful();
    Incremental(RULES, xs, ys);
  }
}
