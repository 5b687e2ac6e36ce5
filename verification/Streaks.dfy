/** Contribution streaks over UTC days. A day is an integer; a date that cannot be read has
    none. */
module Streaks {
  import opened Common

  /** `lastActive` is absent when there is no readable contribution. */
  datatype Summary = Summary(current: nat, best: nat, activeThisYear: nat, lastActive: Option<int>)

  // ----- Runs of days -----

  /** The `length` days that end at `last` are all in the set. */
  predicate RunEnding(days: set<int>, last: int, length: nat) {
    forall d :: last - length < d <= last ==> d in days
  }

  ghost predicate HasRun(days: set<int>, length: nat) { exists last :: RunEnding(days, last, length) }

  /** The longest run of consecutive days. */
  ghost predicate IsBest(days: set<int>, best: nat) {
    HasRun(days, best) && forall n: nat :: HasRun(days, n) ==> n <= best
  }

  /** The run that ends at `last` and cannot be extended backwards. */
  predicate IsRunAt(days: set<int>, last: int, length: nat) {
    RunEnding(days, last, length) && last - length !in days
  }

  /** No run that ends at the same day is longer. */
  lemma RunAtLongest(days: set<int>, last: int, length: nat, n: nat)
    requires IsRunAt(days, last, length) && RunEnding(days, last, n)
    ensures n <= length
  {
    assert n > length ==> last - length in days;
  }

  predicate IsLatest(days: set<int>, latest: int) {
    latest in days && forall d :: d in days ==> d <= latest
  }

  function DaysOf(rows: seq<Option<int>>): set<int> { set r | r in rows && r.Some? :: r.value }

  function DaysIn(days: set<int>, yearOf: int -> int, year: int): set<int> { set d | d in days && yearOf(d) == year }

  lemma AddDay(days: set<int>, day: int, yearOf: int -> int, year: int)
    requires day !in days
    ensures |DaysIn(days + {day}, yearOf, year)| == |DaysIn(days, yearOf, year)| + if yearOf(day) == year then 1 else 0
  {
    if yearOf(day) == year {
      assert DaysIn(days + {day}, yearOf, year) == DaysIn(days, yearOf, year) + {day};
    } else {
      assert DaysIn(days + {day}, yearOf, year) == DaysIn(days, yearOf, year);
    }
  }

  /** Everything the summary says is about the set of days, today and the current year. */
  ghost predicate Describes(s: Summary, days: set<int>, today: int, yearOf: int -> int, thisYear: int) {
    && s.activeThisYear == |set d | d in days && yearOf(d) == thisYear|
    && (days == {} <==> s.lastActive.None?)
    && (days == {} ==> s.current == 0 && s.best == 0)
    && (days != {} ==>
          && IsLatest(days, s.lastActive.value) && IsBest(days, s.best)
          && (if today - s.lastActive.value > 1 then s.current == 0 else IsRunAt(days, s.lastActive.value, s.current)))
  }

  // ----- Sorting -----

  function Elements(s: seq<int>): set<int> { set d | d in s }

  predicate Increasing(s: seq<int>) { forall i, j :: 0 <= i < j < |s| ==> s[i] < s[j] }

  /** Sorts the date keys, listed as the set iterates over them. */
  method SortDays(listed: seq<int>) returns (sorted: seq<int>)
    ensures Increasing(sorted) && Elements(sorted) == Elements(listed)
  {
    sorted := [];
    for n := 0 to |listed|
      invariant Increasing(sorted) && Elements(sorted) == Elements(listed[..n])
    {
      assert listed[..n + 1] == listed[..n] + [listed[n]];
      if listed[n] !in sorted {
        sorted := Insert(sorted, listed[n]);
      }
    }
    assert listed[..|listed|] == listed;
  }

  method Insert(sorted: seq<int>, day: int) returns (r: seq<int>)
    requires Increasing(sorted) && day !in sorted
    ensures Increasing(r) && Elements(r) == Elements(sorted) + {day}
  {
    hide Increasing, Elements;
    var p := 0;
    while p < |sorted| && sorted[p] < day
      invariant 0 <= p <= |sorted| && forall i :: 0 <= i < p ==> sorted[i] < day
    {
      p := p + 1;
    }
    r := sorted[..p] + [day] + sorted[p..];
    Inserted(sorted, day, p);
  }

  lemma Inserted(sorted: seq<int>, day: int, p: nat)
    requires Increasing(sorted) && day !in sorted && p <= |sorted|
    requires forall i :: 0 <= i < p ==> sorted[i] < day
    requires p < |sorted| ==> sorted[p] >= day
    ensures var r := sorted[..p] + [day] + sorted[p..]; Increasing(r) && Elements(r) == Elements(sorted) + {day}
  {
    hide Elements;
    var before, after := sorted[..p], sorted[p..];
    var r := before + [day] + after;
    forall i | 0 <= i < |after|
      ensures day < after[i]
    {
      assert after[i] == sorted[p + i] && sorted[p + i] in sorted;
    }
    assert forall i, j :: 0 <= i < j < |before| ==> before[i] < before[j];
    assert forall i, j :: 0 <= i < j < |after| ==> after[i] < after[j];
    assert forall i, j :: 0 <= i < |before| && 0 <= j < |after| ==> before[i] < after[j];
    assert Increasing(r);
    ElementsInserted(before, day, after);
    assert sorted == before + after;
  }

  lemma ElementsInserted(before: seq<int>, day: int, after: seq<int>)
    ensures Elements(before + [day] + after) == Elements(before + after) + {day}
  {
    var r, s := before + [day] + after, before + after;
    assert forall d :: d in r <==> d in before || d == day || d in after;
    assert forall d :: d in s <==> d in before || d in after;
  }

  // ----- The longest run, along the sorted days -----

  /** `running` is the run ending at day `i` of the sorted list, `best` the longest among the
      first `i + 1` days. */
  ghost predicate Scanned(sorted: seq<int>, i: nat, running: nat, best: nat)
    requires i < |sorted|
  {
    var seen := Elements(sorted[..i + 1]);
    IsRunAt(seen, sorted[i], running) && 1 <= running <= best && IsBest(seen, best)
  }

  lemma FirstScanned(sorted: seq<int>)
    requires sorted != []
    ensures Scanned(sorted, 0, 1, 1)
  {
    var seen := Elements(sorted[..1]);
    assert seen == {sorted[0]};
    assert RunEnding(seen, sorted[0], 1);
    forall n: nat | HasRun(seen, n)
      ensures n <= 1
    {
      var last :| RunEnding(seen, last, n);
      assert n > 1 ==> last in seen && last - 1 in seen;
    }
  }

  /** A run in a set grown by a later day ends at that day or was there before. */
  lemma RunsGrow(seen: set<int>, day: int, last: int, n: nat)
    requires RunEnding(seen + {day}, last, n) && forall d :: d in seen ==> d < day
    ensures last == day || n == 0 || RunEnding(seen, last, n)
  {
    if n > 0 {
      assert last in seen + {day};
    }
  }

  lemma NextScanned(sorted: seq<int>, i: nat, running: nat, best: nat)
    requires Increasing(sorted) && i + 1 < |sorted| && Scanned(sorted, i, running, best)
    ensures var running' := if sorted[i + 1] - sorted[i] == 1 then running + 1 else 1;
            Scanned(sorted, i + 1, running', if running' > best then running' else best)
  {
    var seen := Elements(sorted[..i + 1]);
    var more := Elements(sorted[..i + 2]);
    var day := sorted[i + 1];
    assert sorted[..i + 2] == sorted[..i + 1] + [day];
    assert more == seen + {day};
    assert forall d :: d in seen ==> d <= sorted[i];
    var running' := if day - sorted[i] == 1 then running + 1 else 1;
    RunExtended(seen, sorted[i], running, day);
    var best' := if running' > best then running' else best;
    var lastBest :| RunEnding(seen, lastBest, best);
    assert RunEnding(more, lastBest, best) && RunEnding(more, day, running');
    assert HasRun(more, best');
    forall n: nat | HasRun(more, n)
      ensures n <= best'
    {
      var last :| RunEnding(more, last, n);
      RunsGrow(seen, day, last, n);
      if last == day {
        RunAtLongest(more, day, running', n);
      } else if n > 0 {
        assert HasRun(seen, n);
      }
    }
  }

  /** A day right after the latest one extends its run; a later day starts a new run. */
  lemma RunExtended(seen: set<int>, latest: int, running: nat, day: int)
    requires IsRunAt(seen, latest, running) && running >= 1 && latest < day && forall d :: d in seen ==> d <= latest
    ensures IsRunAt(seen + {day}, day, if day - latest == 1 then running + 1 else 1)
  {
  }

  // ----- The summary -----

  lemma OneMoreRow(rows: seq<Option<int>>, n: nat)
    requires n < |rows|
    ensures DaysOf(rows[..n + 1]) == DaysOf(rows[..n]) + if rows[n].Some? then {rows[n].value} else {}
  {
    assert rows[..n + 1] == rows[..n] + [rows[n]];
  }

  lemma EmptyDays()
    ensures DaysOf([]) == {}
  {
  }

  lemma NoRow()
    ensures forall yearOf, year :: DaysIn(DaysOf([]), yearOf, year) == {}
  {
    assert DaysOf([]) == {};
  }

  /** The first loop: the set of days, the order in which it was filled, and how many days
      fall into the current year. */
  method CollectDays(mergedDays: seq<Option<int>>, yearOf: int -> int, thisYear: int)
    returns (daySet: set<int>, listed: seq<int>, active: nat)
    ensures daySet == DaysOf(mergedDays) == Elements(listed) && active == |DaysIn(daySet, yearOf, thisYear)|
  {
    hide DaysOf, DaysIn;
    daySet, listed, active := {}, [], 0;
    NoRow();
    EmptyDays();
    for n := 0 to |mergedDays|
      invariant daySet == DaysOf(mergedDays[..n]) == Elements(listed)
      invariant active == |DaysIn(daySet, yearOf, thisYear)|
    {
      var key := mergedDays[n];
      OneMoreRow(mergedDays, n);
      if key.Some? {
        if key.value !in daySet {
          AddDay(daySet, key.value, yearOf, thisYear);
          if yearOf(key.value) == thisYear {
            active := active + 1;
          }
          listed := listed + [key.value];
        } else {
          assert daySet + {key.value} == daySet;
        }
        daySet := daySet + {key.value};
      }
    }
    assert mergedDays[..|mergedDays|] == mergedDays;
  }

  /** The second loop: the longest run along the sorted days. */
  method BestRun(sorted: seq<int>) returns (best: nat)
    requires Increasing(sorted) && sorted != []
    ensures IsBest(Elements(sorted), best)
  {
    hide IsBest, IsRunAt;
    best := 1;
    var running := 1;
    FirstScanned(sorted);
    for index := 1 to |sorted|
      invariant Scanned(sorted, index - 1, running, best)
    {
      NextScanned(sorted, index - 1, running, best);
      if sorted[index] - sorted[index - 1] == 1 {
        running := running + 1;
        best := if running > best then running else best;
      } else {
        running := 1;
      }
    }
    assert sorted[..|sorted|] == sorted;
  }

  method SummarizeContributionStreak(mergedDays: seq<Option<int>>, today: int, yearOf: int -> int, thisYear: int)
    returns (s: Summary)
    ensures Describes(s, DaysOf(mergedDays), today, yearOf, thisYear)
  {
    var daySet, listed, active := CollectDays(mergedDays, yearOf, thisYear);
    var sorted := SortDays(listed);
    if |sorted| == 0 {
      return Summary(0, 0, active, None);
    }
    var best := BestRun(sorted);
    var latest := sorted[|sorted| - 1];
    assert sorted[0] in Elements(sorted) && latest in Elements(sorted);
    var current := BackwardRun(daySet, sorted[0], latest);
    if today - latest > 1 {
      current := 0;
    }
    assert IsLatest(daySet, latest);
    assert daySet != {};
    return Summary(current, best, active, Some(latest));
  }

  /** Walks back from the latest day for as long as the days are active; it stops because it
      would pass the first day otherwise. */
  method BackwardRun(days: set<int>, ghost first: int, latest: int) returns (length: nat)
    requires forall d :: d in days ==> first <= d
    ensures IsRunAt(days, latest, length)
  {
    length := 0;
    var cursor := latest;
    while cursor in days
      invariant cursor == latest - length && RunEnding(days, latest, length)
      decreases cursor - first + 1
    {
      length := length + 1;
      cursor := cursor - 1;
    }
  }

  // ----- What the summary promises -----

  lemma RunAtUnique(days: set<int>, last: int, m: nat, n: nat)
    requires IsRunAt(days, last, m) && IsRunAt(days, last, n)
    ensures m == n
  {
    RunAtLongest(days, last, m, n);
    RunAtLongest(days, last, n, m);
  }

  /** The summary is a function of the set of days: neither the order nor the repetition of
      rows matters. */
  lemma OnlyTheDaysMatter(s: Summary, t: Summary, days: set<int>, today: int, yearOf: int -> int, thisYear: int)
    requires Describes(s, days, today, yearOf, thisYear) && Describes(t, days, today, yearOf, thisYear)
    ensures s == t
  {
    if days != {} {
      var latest := s.lastActive.value;
      assert t.lastActive.value == latest;
      assert HasRun(days, s.best) && HasRun(days, t.best);
      if today - latest <= 1 {
        RunAtUnique(days, latest, s.current, t.current);
      }
    }
  }

  /** The current streak is a run, so the best streak is at least as long, and a day gap of
      more than one ends it. */
  lemma CurrentWithinBest(s: Summary, days: set<int>, today: int, yearOf: int -> int, thisYear: int)
    requires Describes(s, days, today, yearOf, thisYear)
    ensures s.current <= s.best
    ensures days != {} ==> s.best >= 1 && (s.current == 0 <==> today - s.lastActive.value > 1)
  {
    if days != {} {
      var latest := s.lastActive.value;
      assert RunEnding(days, latest, 1);
      assert HasRun(days, 1);
      if s.current > 0 {
        assert HasRun(days, s.current);
      }
    }
  }
}
