/** Ordered merging by key: rows are folded into one entry per key, entries stay in the order
    in which their keys first appeared. The deduplications of the front end are all of this
    kind; they differ in the key, in what is made of a first row, and in how a later row is
    merged into the entry. */
module KeyedFold {

  datatype Rules<!T, !K> = Rules(key: T -> K, init: T -> T, merge: (T, T) -> T)

  ghost function IndexOfKey<T, K>(entries: seq<T>, rules: Rules<T, K>, k: K): (i: int)
    ensures -1 <= i < |entries|
    ensures i >= 0 ==> rules.key(entries[i]) == k
    ensures i < 0 ==> forall m :: 0 <= m < |entries| ==> rules.key(entries[m]) != k
  {
    if entries == [] then -1
    else
      var i := IndexOfKey(entries[..|entries| - 1], rules, k);
      if i >= 0 then i else if rules.key(entries[|entries| - 1]) == k then |entries| - 1 else -1
  }

  ghost function Step<T, K>(entries: seq<T>, rules: Rules<T, K>, row: T): seq<T> {
    var i := IndexOfKey(entries, rules, rules.key(row));
    if i < 0 then entries + [rules.init(row)] else entries[i := rules.merge(entries[i], row)]
  }

  ghost function Fold<T, K>(entries: seq<T>, rules: Rules<T, K>, rows: seq<T>): seq<T> {
    if rows == [] then entries
    else Step(Fold(entries, rules, rows[..|rows| - 1]), rules, rows[|rows| - 1])
  }

  ghost function Dedup<T, K>(rules: Rules<T, K>, rows: seq<T>): seq<T> { Fold([], rules, rows) }

  /** An entry is settled when making a first row of it again changes nothing. */
  ghost predicate Settled<T, K>(rules: Rules<T, K>, entry: T) { rules.init(entry) == entry }

  /** What the laws below need of the rules. */
  ghost predicate Lawful<T(!new), K>(rules: Rules<T, K>) {
    && (forall x :: rules.key(rules.init(x)) == rules.key(x))
    && (forall x :: Settled(rules, rules.init(x)))
    && (forall a, x :: rules.key(a) == rules.key(x) ==> rules.key(rules.merge(a, x)) == rules.key(a))
    && (forall a, x :: Settled(rules, a) && rules.key(a) == rules.key(x) ==> Settled(rules, rules.merge(a, x)))
  }

  ghost predicate Distinct<T, K>(rules: Rules<T, K>, entries: seq<T>) {
    forall i, j :: 0 <= i < j < |entries| ==> rules.key(entries[i]) != rules.key(entries[j])
  }

  ghost predicate AllSettled<T, K>(rules: Rules<T, K>, entries: seq<T>) {
    forall i :: 0 <= i < |entries| ==> Settled(rules, entries[i])
  }

  // ----- Incremental merging -----

  lemma {:induction false} FoldAppend<T, K>(entries: seq<T>, rules: Rules<T, K>, xs: seq<T>, ys: seq<T>)
    ensures Fold(entries, rules, xs + ys) == Fold(Fold(entries, rules, xs), rules, ys)
  {
    if ys == [] {
      assert xs + ys == xs;
    } else {
      var init := ys[..|ys| - 1];
      FoldAppend(entries, rules, xs, init);
      assert (xs + ys)[..|xs + ys| - 1] == xs + init;
    }
  }

  lemma {:induction false} DedupShape<T(!new), K>(rules: Rules<T, K>, rows: seq<T>)
    requires Lawful(rules)
    ensures Distinct(rules, Dedup(rules, rows)) && AllSettled(rules, Dedup(rules, rows))
  {
    if rows != [] {
      DedupShape(rules, rows[..|rows| - 1]);
    }
  }

  /** Entries that are distinct and settled are left alone. */
  lemma {:induction false} DedupFixed<T, K>(rules: Rules<T, K>, entries: seq<T>)
    requires Distinct(rules, entries) && AllSettled(rules, entries)
    ensures Dedup(rules, entries) == entries
  {
    if entries != [] {
      var n := |entries| - 1;
      DedupFixed(rules, entries[..n]);
      assert Settled(rules, entries[n]);
      assert entries == entries[..n] + [entries[n]];
    }
  }

  /** The incremental law: merging new rows into what was merged before gives what merging
      everything at once gives. */
  lemma Incremental<T(!new), K>(rules: Rules<T, K>, xs: seq<T>, ys: seq<T>)
    requires Lawful(rules)
    ensures Dedup(rules, Dedup(rules, xs) + ys) == Dedup(rules, xs + ys)
    ensures Dedup(rules, Dedup(rules, xs)) == Dedup(rules, xs)
  {
    DedupShape(rules, xs);
    DedupFixed(rules, Dedup(rules, xs));
    FoldAppend([], rules, Dedup(rules, xs), ys);
    FoldAppend([], rules, xs, ys);
  }

  // ----- What the result means -----

  /** The rows with one key, in order. */
  ghost function Group<T(!new), K>(rules: Rules<T, K>, rows: seq<T>, k: K): (g: seq<T>)
    ensures forall x :: x in g <==> x in rows && rules.key(x) == k
  {
    if rows == [] then []
    else
      var last := rows[|rows| - 1];
      Group(rules, rows[..|rows| - 1], k) + (if rules.key(last) == k then [last] else [])
  }

  /** A whole group folded into one entry. */
  ghost function Merged<T, K>(rules: Rules<T, K>, group: seq<T>): T
    requires group != []
  {
    if |group| == 1 then rules.init(group[0])
    else rules.merge(Merged(rules, group[..|group| - 1]), group[|group| - 1])
  }

  ghost function FirstSeen<K>(keys: seq<K>): seq<K> {
    if keys == [] then []
    else
      var before := FirstSeen(keys[..|keys| - 1]);
      if keys[|keys| - 1] in keys[..|keys| - 1] then before else before + [keys[|keys| - 1]]
  }

  ghost function Keys<T, K>(rules: Rules<T, K>, rows: seq<T>): (r: seq<K>)
    ensures |r| == |rows| && forall i :: 0 <= i < |rows| ==> r[i] == rules.key(rows[i])
  {
    seq(|rows|, i requires 0 <= i < |rows| => rules.key(rows[i]))
  }

  lemma {:induction false} KeysInOrder<T(!new), K>(rules: Rules<T, K>, rows: seq<T>)
    requires Lawful(rules)
    ensures Keys(rules, Dedup(rules, rows)) == FirstSeen(Keys(rules, rows))
    ensures forall k :: k in Keys(rules, rows) <==> k in Keys(rules, Dedup(rules, rows))
  {
    if rows != [] {
      var n := |rows| - 1;
      KeysInOrder(rules, rows[..n]);
      var before := Dedup(rules, rows[..n]);
      var ks := Keys(rules, rows);
      assert ks[..n] == Keys(rules, rows[..n]);
      assert ks == ks[..n] + [ks[n]];
      var i := IndexOfKey(before, rules, ks[n]);
      if i < 0 {
        assert ks[n] !in Keys(rules, before);
        assert Keys(rules, Dedup(rules, rows)) == Keys(rules, before) + [ks[n]];
      } else {
        assert Keys(rules, before)[i] == ks[n];
        assert Keys(rules, Dedup(rules, rows)) == Keys(rules, before);
      }
    }
  }

  lemma GroupLast<T(!new), K>(rules: Rules<T, K>, rows: seq<T>, k: K)
    requires rows != []
    ensures var n := |rows| - 1;
            Group(rules, rows, k) == if rules.key(rows[n]) == k then Group(rules, rows[..n], k) + [rows[n]] else Group(rules, rows[..n], k)
  {
  }

  /** What a step makes of the entry at `i`. */
  lemma StepEntry<T(!new), K>(rules: Rules<T, K>, entries: seq<T>, row: T, i: nat)
    requires Lawful(rules) && Distinct(rules, entries) && i < |Step(entries, rules, row)|
    ensures var entry := Step(entries, rules, row)[i];
            if i < |entries| then
              && rules.key(entry) == rules.key(entries[i])
              && entry == if rules.key(row) == rules.key(entries[i]) then rules.merge(entries[i], row) else entries[i]
            else
              entry == rules.init(row) && rules.key(entry) == rules.key(row) && rules.key(row) !in Keys(rules, entries)
  {
    var at := IndexOfKey(entries, rules, rules.key(row));
    assert i < |entries| && rules.key(row) == rules.key(entries[i]) ==> at == i;
  }

  lemma NewKeyHasNoGroup<T(!new), K>(rules: Rules<T, K>, rows: seq<T>, k: K)
    requires Lawful(rules) && k !in Keys(rules, Dedup(rules, rows))
    ensures Group(rules, rows, k) == []
  {
    hide Dedup, Group;
    KeysInOrder(rules, rows);
    NoGroup(rules, rows, k);
  }

  lemma {:induction false} EntryIsGroup<T(!new), K>(rules: Rules<T, K>, rows: seq<T>, i: nat)
    requires Lawful(rules) && i < |Dedup(rules, rows)|
    ensures var k := rules.key(Dedup(rules, rows)[i]);
            Group(rules, rows, k) != [] && Dedup(rules, rows)[i] == Merged(rules, Group(rules, rows, k))
  {
    hide Dedup, Lawful, Step, Distinct, Group;
    NothingMerged(rules);
    var n := |rows| - 1;
    var init := rows[..n];
    DedupStep(rules, rows, n);
    assert rows[..n + 1] == rows;
    var before := Dedup(rules, init);
    var k := rules.key(Dedup(rules, rows)[i]);
    DedupShape(rules, init);
    StepEntry(rules, before, rows[n], i);
    GroupLast(rules, rows, k);
    if i < |before| {
      EntryIsGroup(rules, init, i);
      if rules.key(rows[n]) == k {
        MergedGrows(rules, Group(rules, init, k), rows[n]);
      }
    } else {
      NewKeyHasNoGroup(rules, init, k);
      assert Group(rules, rows, k) == [rows[n]];
    }
  }

  lemma MergedGrows<T, K>(rules: Rules<T, K>, group: seq<T>, row: T)
    requires group != []
    ensures Merged(rules, group + [row]) == rules.merge(Merged(rules, group), row)
  {
    assert (group + [row])[..|group|] == group;
  }

  lemma NothingMerged<T, K>(rules: Rules<T, K>)
    ensures Dedup(rules, []) == []
  {
  }

  lemma {:induction false} NoGroup<T(!new), K>(rules: Rules<T, K>, rows: seq<T>, k: K)
    requires k !in Keys(rules, rows)
    ensures Group(rules, rows, k) == []
  {
    if rows != [] {
      var n := |rows| - 1;
      assert Keys(rules, rows)[n] == rules.key(rows[n]);
      assert Keys(rules, rows[..n]) == Keys(rules, rows)[..n];
      NoGroup(rules, rows[..n], k);
    }
  }

  /** The meaning of a keyed fold: one entry for each key, in the order of first appearance,
      each entry the merge of exactly the rows with its key. */
  lemma Meaning<T(!new), K>(rules: Rules<T, K>, rows: seq<T>)
    requires Lawful(rules)
    ensures Distinct(rules, Dedup(rules, rows))
    ensures Keys(rules, Dedup(rules, rows)) == FirstSeen(Keys(rules, rows))
    ensures forall i :: 0 <= i < |Dedup(rules, rows)| ==>
              var g := Group(rules, rows, rules.key(Dedup(rules, rows)[i]));
              g != [] && Dedup(rules, rows)[i] == Merged(rules, g)
  {
    DedupShape(rules, rows);
    KeysInOrder(rules, rows);
    forall i | 0 <= i < |Dedup(rules, rows)|
      ensures var g := Group(rules, rows, rules.key(Dedup(rules, rows)[i]));
              g != [] && Dedup(rules, rows)[i] == Merged(rules, g)
    {
      EntryIsGroup(rules, rows, i);
    }
  }

  /** The entries partition the rows: every row has its key in exactly one entry, whose group is
      exactly the rows with that key. */
  lemma Partition<T(!new), K>(rules: Rules<T, K>, rows: seq<T>)
    requires Lawful(rules)
    ensures var r := Dedup(rules, rows);
            && (forall i, j :: 0 <= i < j < |r| ==> rules.key(r[i]) != rules.key(r[j]))
            && (forall x :: x in rows ==> exists i :: 0 <= i < |r| && rules.key(r[i]) == rules.key(x))
            && (forall i, x :: 0 <= i < |r| ==> (x in Group(rules, rows, rules.key(r[i])) <==> x in rows && rules.key(x) == rules.key(r[i])))
  {
    hide Dedup, Lawful;
    DedupShape(rules, rows);
    var r := Dedup(rules, rows);
    forall x | x in rows
      ensures exists i :: 0 <= i < |r| && rules.key(r[i]) == rules.key(x)
    {
      var m :| 0 <= m < |rows| && rows[m] == x;
      assert Keys(rules, rows)[m] == rules.key(x);
      var i := KeySurvives(rules, rows, rules.key(x));
    }
  }

  lemma KeySurvives<T(!new), K>(rules: Rules<T, K>, rows: seq<T>, k: K) returns (i: nat)
    requires Lawful(rules) && k in Keys(rules, rows)
    ensures i < |Dedup(rules, rows)| && rules.key(Dedup(rules, rows)[i]) == k
  {
    hide Dedup, Lawful;
    KeysInOrder(rules, rows);
    var after := Keys(rules, Dedup(rules, rows));
    i :| 0 <= i < |after| && after[i] == k;
  }

  /** One more row, as the loops see it. */
  lemma DedupStep<T, K>(rules: Rules<T, K>, rows: seq<T>, n: nat)
    requires n < |rows|
    ensures Dedup(rules, rows[..n + 1]) == Step(Dedup(rules, rows[..n]), rules, rows[n])
  {
    assert rows[..n + 1][..n] == rows[..n];
  }

  // ----- The survivor of a group -----

  /** A strict preference that compares ranks: irreflexive, transitive, and two rows that are
      not preferred over each other are interchangeable. */
  ghost predicate Ranked<T(!new)>(better: (T, T) -> bool) {
    && (forall x :: !better(x, x))
    && (forall x, y, z :: better(x, y) && better(y, z) ==> better(x, z))
    && (forall x, y, z :: better(x, z) ==> better(x, y) || better(y, z))
  }

  /** The first row of the group that no row is better than. */
  ghost predicate FirstBest<T>(better: (T, T) -> bool, group: seq<T>, i: nat) {
    && i < |group|
    && (forall m :: 0 <= m < |group| ==> !better(group[m], group[i]))
    && (forall m :: 0 <= m < i ==> better(group[i], group[m]))
  }

  ghost predicate IsFirstBest<T>(better: (T, T) -> bool, group: seq<T>, x: T) {
    exists i: nat :: FirstBest(better, group, i) && group[i] == x
  }

  /** Replacing the kept row only by strictly better ones keeps the first best. */
  lemma FirstBestStep<T(!new)>(better: (T, T) -> bool, group: seq<T>, i: nat, x: T)
    requires Ranked(better) && FirstBest(better, group, i)
    ensures FirstBest(better, group + [x], if better(x, group[i]) then |group| else i)
  {
  }

  /** A row whose key is held at `i` is merged there. */
  lemma StepAt<T, K>(rules: Rules<T, K>, entries: seq<T>, row: T, i: nat)
    requires Distinct(rules, entries) && i < |entries| && rules.key(entries[i]) == rules.key(row)
    ensures Step(entries, rules, row) == entries[i := rules.merge(entries[i], row)]
  {
    var k := IndexOfKey(entries, rules, rules.key(row));
    assert k == i;
  }

  // ----- Keyed folds over a mutable map -----

  /** The entries, kept as a list of keys in insertion order and a map from key to entry. */
  ghost predicate Represents<T, K>(rules: Rules<T, K>, entries: seq<T>, order: seq<K>, byKey: map<K, T>) {
    && |order| == |entries| && Distinct(rules, entries)
    && (forall i :: 0 <= i < |order| ==> order[i] == rules.key(entries[i]) && order[i] in byKey && byKey[order[i]] == entries[i])
    && (forall k :: k in byKey ==> k in order)
  }

  /** Inserting at a new key, or replacing at a known one, is one step of the fold. */
  lemma RepresentsStep<T(!new), K>(rules: Rules<T, K>, entries: seq<T>, order: seq<K>, byKey: map<K, T>, row: T)
    requires Lawful(rules) && Represents(rules, entries, order, byKey)
    ensures var k := rules.key(row);
            if k in byKey
            then Represents(rules, Step(entries, rules, row), order, byKey[k := rules.merge(byKey[k], row)])
            else Represents(rules, Step(entries, rules, row), order + [k], byKey[k := rules.init(row)])
  {
    var k := rules.key(row);
    var i := IndexOfKey(entries, rules, k);
    if i >= 0 {
      assert order[i] == k;
    }
  }
}
