/** Contributions summed up by repository, the repositories worth most first. */
module Repositories {
  import opened Common
  import opened KeyedFold
  import C = Contributions

  datatype Touch = Touch(fullName: string, contributions: nat, totalXp: real, lastMergedAt: Stamp)

  function NameOf(row: C.Contribution): string { row.owner + "/" + row.repo }

  /** What one contribution makes of a repository not seen before. */
  function TouchOf(row: C.Contribution): Touch { Touch(NameOf(row), 1, row.xpEarned, row.mergedAt) }

  function Touches(rows: seq<C.Contribution>): (r: seq<Touch>)
    ensures |r| == |rows| && forall i :: 0 <= i < |rows| ==> r[i] == TouchOf(rows[i])
  {
    seq(|rows|, i requires 0 <= i < |rows| => TouchOf(rows[i]))
  }

  function Add(a: Touch, b: Touch): Touch {
    Touch(a.fullName, a.contributions + b.contributions, a.totalXp + b.totalXp,
          if C.Later(b.lastMergedAt, a.lastMergedAt) then b.lastMergedAt else a.lastMergedAt)
  }

  ghost const RULES: Rules<Touch, string> := Rules((t: Touch) => t.fullName, (t: Touch) => t, Add)

  lemma RulesLawful()
    ensures Lawful(RULES)
  {
  }

  // ----- Ranking -----

  predicate Outranks(a: Touch, b: Touch) {
    a.totalXp > b.totalXp || (a.totalXp == b.totalXp && a.contributions > b.contributions)
  }

  predicate Level(a: Touch, b: Touch) { !Outranks(a, b) && !Outranks(b, a) }

  predicate Ordered(s: seq<Touch>) { forall i, j :: 0 <= i < j < |s| ==> !Outranks(s[j], s[i]) }

  /** Before the first entry it outranks. */
  function Insert(sorted: seq<Touch>, t: Touch): (r: seq<Touch>)
    requires Ordered(sorted)
    ensures Ordered(r) && multiset(r) == multiset(sorted) + multiset{t}
  {
    if sorted == [] || !Outranks(t, sorted[|sorted| - 1]) then sorted + [t]
    else
      var last := sorted[|sorted| - 1];
      var init := sorted[..|sorted| - 1];
      assert sorted == init + [last];
      var r := Insert(init, t);
      LastStaysLast(init, t, r, last);
      r + [last]
  }

  lemma LastStaysLast(init: seq<Touch>, t: Touch, r: seq<Touch>, last: Touch)
    requires Ordered(r) && multiset(r) == multiset(init) + multiset{t} && !Outranks(last, t)
    requires forall i :: 0 <= i < |init| ==> !Outranks(last, init[i])
    ensures Ordered(r + [last]) && multiset(r + [last]) == multiset(init + [last]) + multiset{t}
  {
    hide Outranks;
    assert multiset(r + [last]) == multiset(r) + multiset{last};
    assert multiset(init + [last]) == multiset(init) + multiset{last};
    forall i | 0 <= i < |r|
      ensures !Outranks(last, r[i])
    {
      assert r[i] in multiset(r);
      assert r[i] in multiset(init) || r[i] == t;
    }
  }

  /** JavaScript's stable sort by the ranking. */
  function Sorted(s: seq<Touch>): (r: seq<Touch>)
    ensures Ordered(r) && multiset(r) == multiset(s)
  {
    if s == [] then []
    else
      assert s == s[..|s| - 1] + [s[|s| - 1]];
      Insert(Sorted(s[..|s| - 1]), s[|s| - 1])
  }

  /** The entries level with `t`, in order. */
  function LevelWith(s: seq<Touch>, t: Touch): seq<Touch> {
    if s == [] then []
    else LevelWith(s[..|s| - 1], t) + (if Level(s[|s| - 1], t) then [s[|s| - 1]] else [])
  }

  lemma LevelLast(s: seq<Touch>, x: Touch, t: Touch)
    ensures LevelWith(s + [x], t) == LevelWith(s, t) + if Level(x, t) then [x] else []
  {
    assert (s + [x])[..|s|] == s;
  }

  lemma InsertLower(init: seq<Touch>, last: Touch, x: Touch)
    requires Ordered(init + [last])
    ensures Ordered(init)
    ensures Insert(init + [last], x) == if Outranks(x, last) then Insert(init, x) + [last] else init + [last] + [x]
  {
    hide Outranks;
    var sorted := init + [last];
    assert sorted[..|sorted| - 1] == init && sorted[|sorted| - 1] == last;
    assert forall i :: 0 <= i < |init| ==> sorted[i] == init[i];
  }

  lemma {:induction false} InsertIsStable(sorted: seq<Touch>, x: Touch, t: Touch)
    requires Ordered(sorted)
    ensures LevelWith(Insert(sorted, x), t) == LevelWith(sorted + [x], t)
  {
    hide Level, Outranks, Insert, Ordered;
    if sorted == [] {
      InsertFirst(x);
    } else {
      var init, last := sorted[..|sorted| - 1], sorted[|sorted| - 1];
      assert sorted == init + [last];
      InsertLower(init, last, x);
      if Outranks(x, last) {
        InsertIsStable(init, x, t);
        LevelLast(Insert(init, x), last, t);
        LevelLast(init, x, t);
        LevelLast(init, last, t);
        LevelLast(sorted, x, t);
        NotBothLevel(x, last, t);
      }
    }
  }

  lemma InsertFirst(x: Touch)
    ensures Ordered([]) && Insert([], x) == [] + [x]
  {
  }

  lemma NotBothLevel(x: Touch, y: Touch, t: Touch)
    requires Outranks(x, y)
    ensures !(Level(x, t) && Level(y, t))
  {
  }

  /** Sorting keeps the order of entries that are level. */
  lemma {:induction false} SortIsStable(s: seq<Touch>, t: Touch)
    ensures LevelWith(Sorted(s), t) == LevelWith(s, t)
  {
    hide Level;
    if s != [] {
      var init, last := s[..|s| - 1], s[|s| - 1];
      SortIsStable(init, t);
      InsertIsStable(Sorted(init), last, t);
      LevelLast(Sorted(init), last, t);
    }
  }

  /** `slice(0, limit)`: a negative limit counts from the end. */
  function Slice<T>(s: seq<T>, limit: int): seq<T> {
    if limit >= |s| then s
    else if limit >= 0 then s[..limit]
    else if |s| + limit >= 0 then s[..|s| + limit]
    else []
  }

  ghost function Summary(rows: seq<C.Contribution>, limit: int): seq<Touch> {
    Slice(Sorted(Dedup(RULES, Touches(rows))), limit)
  }

  method SummarizeRepositories(rows: seq<C.Contribution>, limit: int) returns (r: seq<Touch>)
    ensures r == Summary(rows, limit)
  {
    hide Sorted, Dedup;
    var touches := CollectTouches(rows);
    return Slice(Sorted(touches), limit);
  }

  method CollectTouches(rows: seq<C.Contribution>) returns (touches: seq<Touch>)
    ensures touches == Dedup(RULES, Touches(rows))
  {
    hide C.Later, NameOf, Step;
    RulesLawful();
    var order: seq<string> := [];
    var byName: map<string, Touch> := map[];
    ghost var all := Touches(rows);
    for n := 0 to |rows|
      invariant Represents(RULES, Dedup(RULES, all[..n]), order, byName)
    {
      var row := rows[n];
      var key := NameOf(row);
      DedupStep(RULES, all, n);
      RepresentsStep(RULES, Dedup(RULES, all[..n]), order, byName, TouchOf(row));
      if key !in byName {
        byName := byName[key := Touch(key, 1, row.xpEarned, row.mergedAt)];
        order := order + [key];
      } else {
        var existing := byName[key];
        ghost var before := existing;
        existing := existing.(contributions := existing.contributions + 1);
        existing := existing.(totalXp := existing.totalXp + row.xpEarned);
        if C.Later(row.mergedAt, existing.lastMergedAt) {
          existing := existing.(lastMergedAt := row.mergedAt);
        }
        assert existing == Add(before, TouchOf(row));
        byName := byName[key := existing];
      }
    }
    assert all[..|rows|] == all;
    touches := [];
    for i := 0 to |order|
      invariant touches == Dedup(RULES, all)[..i]
    {
      touches := touches + [byName[order[i]]];
    }
  }

  // ----- Conservation -----

  function Count(touches: seq<Touch>): nat {
    if touches == [] then 0 else Count(touches[..|touches| - 1]) + touches[|touches| - 1].contributions
  }

  function TotalXp(touches: seq<Touch>): real {
    if touches == [] then 0.0 else TotalXp(touches[..|touches| - 1]) + touches[|touches| - 1].totalXp
  }

  lemma {:induction false} TotalsUpdate(s: seq<Touch>, i: nat, t: Touch)
    requires i < |s|
    ensures Count(s[i := t]) == Count(s) - s[i].contributions + t.contributions
    ensures TotalXp(s[i := t]) == TotalXp(s) - s[i].totalXp + t.totalXp
  {
    var n := |s| - 1;
    if i < n {
      TotalsUpdate(s[..n], i, t);
      assert s[i := t][..n] == s[..n][i := t];
    } else {
      assert s[i := t][..n] == s[..n];
    }
  }

  lemma TotalsAppend(s: seq<Touch>, t: Touch)
    ensures Count(s + [t]) == Count(s) + t.contributions && TotalXp(s + [t]) == TotalXp(s) + t.totalXp
  {
    assert (s + [t])[..|s|] == s;
  }

  lemma TotalsStep(entries: seq<Touch>, t: Touch)
    ensures Count(Step(entries, RULES, t)) == Count(entries) + t.contributions
    ensures TotalXp(Step(entries, RULES, t)) == TotalXp(entries) + t.totalXp
  {
    hide Count, TotalXp, C.Later;
    var i := IndexOfKey(entries, RULES, RULES.key(t));
    if i < 0 {
      TotalsAppend(entries, t);
    } else {
      TotalsUpdate(entries, i, Add(entries[i], t));
    }
  }

  lemma {:induction false} TotalsKept(touches: seq<Touch>)
    ensures Count(Dedup(RULES, touches)) == Count(touches) && TotalXp(Dedup(RULES, touches)) == TotalXp(touches)
  {
    hide Step;
    if touches != [] {
      var n := |touches| - 1;
      TotalsKept(touches[..n]);
      TotalsStep(Dedup(RULES, touches[..n]), touches[n]);
    }
  }

  function SumXp(rows: seq<C.Contribution>): real {
    if rows == [] then 0.0 else SumXp(rows[..|rows| - 1]) + rows[|rows| - 1].xpEarned
  }

  lemma {:induction false} RowTotals(rows: seq<C.Contribution>)
    ensures Count(Touches(rows)) == |rows| && TotalXp(Touches(rows)) == SumXp(rows)
  {
    if rows != [] {
      var n := |rows| - 1;
      RowTotals(rows[..n]);
      assert Touches(rows)[..n] == Touches(rows[..n]);
    }
  }

  /** Nothing is lost or counted twice: over all repositories the counts add up to the number
      of contributions, and the points to their points. */
  lemma NothingLost(rows: seq<C.Contribution>)
    ensures Count(Dedup(RULES, Touches(rows))) == |rows|
    ensures TotalXp(Dedup(RULES, Touches(rows))) == SumXp(rows)
  {
    TotalsKept(Touches(rows));
    RowTotals(rows);
  }

  lemma {:induction false} GroupTotals(group: seq<Touch>)
    requires group != []
    ensures var t := Merged(RULES, group);
            && t.contributions == Count(group) && t.totalXp == TotalXp(group)
            && (exists i :: 0 <= i < |group| && t.lastMergedAt == group[i].lastMergedAt)
            && ((forall i :: 0 <= i < |group| ==> group[i].lastMergedAt.millis.Some?) ==>
                  forall i :: 0 <= i < |group| ==> group[i].lastMergedAt.millis.value <= t.lastMergedAt.millis.value)
  {
    var n := |group| - 1;
    if n > 0 {
      GroupTotals(group[..n]);
    } else {
      assert group[..0] == [];
      assert Count(group[..0]) == 0 && TotalXp(group[..0]) == 0.0;
    }
  }

  lemma {:induction false} OnesCount(group: seq<Touch>)
    requires forall t :: t in group ==> t.contributions == 1
    ensures Count(group) == |group|
  {
    if group != [] {
      assert group[|group| - 1] in group;
      OnesCount(group[..|group| - 1]);
    }
  }

  /** One entry per repository, in order of first appearance, with the number, the points and
      (for readable dates) the latest date of exactly its own contributions. */
  lemma EntriesAddUp(rows: seq<C.Contribution>)
    ensures var entries := Dedup(RULES, Touches(rows));
            && Distinct(RULES, entries) && Keys(RULES, entries) == FirstSeen(Keys(RULES, Touches(rows)))
            && forall i :: 0 <= i < |entries| ==> SumsUp(entries[i], Group(RULES, Touches(rows), RULES.key(entries[i])))
  {
    hide Dedup, Group, SumsUp;
    RulesLawful();
    Meaning(RULES, Touches(rows));
    var entries := Dedup(RULES, Touches(rows));
    forall i | 0 <= i < |entries|
      ensures SumsUp(entries[i], Group(RULES, Touches(rows), RULES.key(entries[i])))
    {
      GroupSummed(Group(RULES, Touches(rows), RULES.key(entries[i])));
    }
  }

  ghost predicate SumsUp(t: Touch, group: seq<Touch>) {
    && t.contributions == |group| && t.totalXp == TotalXp(group)
    && (exists i :: 0 <= i < |group| && t.lastMergedAt == group[i].lastMergedAt)
    && ((forall i :: 0 <= i < |group| ==> group[i].lastMergedAt.millis.Some?) ==>
          forall i :: 0 <= i < |group| ==> group[i].lastMergedAt.millis.value <= t.lastMergedAt.millis.value)
  }

  lemma GroupSummed(group: seq<Touch>)
    requires group != [] && forall t :: t in group ==> t.contributions == 1
    ensures SumsUp(Merged(RULES, group), group)
  {
    hide Merged;
    GroupTotals(group);
    OnesCount(group);
  }

  // ----- The selection -----

  lemma SliceIsPrefix(s: seq<Touch>, limit: int) returns (n: nat)
    ensures n <= |s| && Slice(s, limit) == s[..n]
    ensures n == if limit >= |s| then |s| else if limit >= 0 then limit else if |s| + limit > 0 then |s| + limit else 0
  {
    n := |Slice(s, limit)|;
  }

  /** The order of the list: points first, then the number of contributions. */
  predicate NotBehind(a: Touch, b: Touch) {
    a.totalXp > b.totalXp || (a.totalXp == b.totalXp && a.contributions >= b.contributions)
  }

  lemma OrderedMeans(s: seq<Touch>, i: nat, j: nat)
    requires Ordered(s) && i < j < |s|
    ensures NotBehind(s[i], s[j])
  {
  }

  /** The summary lists repositories in that order, and what it leaves out is ahead of nothing it
      lists. It lists as many as wanted, all of them if there are no more; a negative limit leaves
      out that many. */
  lemma TopRepositories(rows: seq<C.Contribution>, limit: int) returns (n: nat)
    ensures var all := Sorted(Dedup(RULES, Touches(rows)));
            && multiset(all) == multiset(Dedup(RULES, Touches(rows)))
            && n <= |all| && Summary(rows, limit) == all[..n]
            && n == (if limit >= |all| then |all| else if limit >= 0 then limit else if |all| + limit > 0 then |all| + limit else 0)
            && forall i, j :: 0 <= i < j < |all| ==> NotBehind(all[i], all[j])
  {
    hide Sorted, Dedup, Outranks, NotBehind, Ordered;
    var all := Sorted(Dedup(RULES, Touches(rows)));
    n := SliceIsPrefix(all, limit);
    forall i, j | 0 <= i < j < |all|
      ensures NotBehind(all[i], all[j])
    {
      OrderedMeans(all, i, j);
    }
  }

  // ----- The rows of a repository -----

  /** The contributions to the repository, in order. */
  function RowsOf(rows: seq<C.Contribution>, fullName: string): (r: seq<C.Contribution>)
    ensures forall x :: x in r <==> x in rows && x.owner + "/" + x.repo == fullName
  {
    if rows == [] then []
    else
      var last := rows[|rows| - 1];
      RowsOf(rows[..|rows| - 1], fullName) + (if last.owner + "/" + last.repo == fullName then [last] else [])
  }

  lemma TouchesLast(rows: seq<C.Contribution>)
    requires rows != []
    ensures var n := |rows| - 1;
            && Touches(rows)[..n] == Touches(rows[..n]) && Touches(rows)[n] == TouchOf(rows[n])
            && Touches(rows) == Touches(rows[..n]) + [TouchOf(rows[n])]
  {
    hide TouchOf;
  }

  lemma RowsOfLast(rows: seq<C.Contribution>, fullName: string)
    requires rows != []
    ensures var n := |rows| - 1;
            Touches(RowsOf(rows, fullName))
            == Touches(RowsOf(rows[..n], fullName)) + if TouchOf(rows[n]).fullName == fullName then [TouchOf(rows[n])] else []
  {
    hide Touches;
    var n := |rows| - 1;
    var before := RowsOf(rows[..n], fullName);
    if rows[n].owner + "/" + rows[n].repo == fullName {
      TouchesLast(before + [rows[n]]);
      assert (before + [rows[n]])[..|before|] == before;
    }
  }

  lemma {:induction false} GroupIsRows(rows: seq<C.Contribution>, fullName: string)
    ensures Group(RULES, Touches(rows), fullName) == Touches(RowsOf(rows, fullName))
  {
    hide Group, RowsOf, Touches, TouchOf, Add;
    if rows == [] {
      NoRows(fullName);
    } else {
      GroupIsRows(rows[..|rows| - 1], fullName);
      TouchesLast(rows);
      RowsOfLast(rows, fullName);
      GroupLast(RULES, Touches(rows), fullName);
    }
  }

  lemma NoRows(fullName: string)
    ensures Group(RULES, Touches([]), fullName) == Touches(RowsOf([], fullName)) == []
  {
  }

  ghost predicate Describes(t: Touch, rows: seq<C.Contribution>) {
    && t.contributions == |rows| && t.totalXp == SumXp(rows)
    && (exists i :: 0 <= i < |rows| && t.lastMergedAt == rows[i].mergedAt)
    && ((forall i :: 0 <= i < |rows| ==> rows[i].mergedAt.millis.Some?) ==>
          forall i :: 0 <= i < |rows| ==> rows[i].mergedAt.millis.value <= t.lastMergedAt.millis.value)
  }

  /** One entry per repository, owner and name written alike; it has the number, the points and (for
      readable dates) the latest date of exactly its own contributions. */
  lemma EntriesDescribeRows(rows: seq<C.Contribution>)
    ensures var r := Dedup(RULES, Touches(rows));
            && (forall i, j :: 0 <= i < j < |r| ==> r[i].fullName != r[j].fullName)
            && (forall x :: x in rows ==> exists i :: 0 <= i < |r| && r[i].fullName == x.owner + "/" + x.repo)
            && (forall i :: 0 <= i < |r| ==> Describes(r[i], RowsOf(rows, r[i].fullName)))
  {
    hide Dedup, SumsUp, Describes;
    RulesLawful();
    EntriesAddUp(rows);
    Partition(RULES, Touches(rows));
    var r := Dedup(RULES, Touches(rows));
    forall x | x in rows
      ensures exists i :: 0 <= i < |r| && r[i].fullName == x.owner + "/" + x.repo
    {
      var m :| 0 <= m < |rows| && rows[m] == x;
      assert Touches(rows)[m] == TouchOf(x) && TouchOf(x) in Touches(rows);
      var i :| 0 <= i < |r| && RULES.key(r[i]) == RULES.key(TouchOf(x));
    }
    forall i | 0 <= i < |r|
      ensures Describes(r[i], RowsOf(rows, r[i].fullName))
    {
      GroupIsRows(rows, r[i].fullName);
      SumsUpRows(r[i], RowsOf(rows, r[i].fullName));
    }
  }

  lemma SumsUpRows(t: Touch, rows: seq<C.Contribution>)
    requires SumsUp(t, Touches(rows))
    ensures Describes(t, rows)
  {
    RowTotals(rows);
    assert forall i :: 0 <= i < |rows| ==> Touches(rows)[i].lastMergedAt == rows[i].mergedAt;
  }
}
