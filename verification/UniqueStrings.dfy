/** Ordered unions of strings: blanks dropped, white space trimmed, later copies dropped. */
module UniqueStrings {
  import opened Text
  import opened KeyedFold

  predicate Blank(s: string) { TrimJs(s) == "" }

  function NonBlank(values: seq<string>): (r: seq<string>)
    ensures forall s :: s in r ==> !Blank(s)
  {
    if values == [] then []
    else NonBlank(values[..|values| - 1]) + (if Blank(values[|values| - 1]) then [] else [values[|values| - 1]])
  }

  ghost function Rules(same: string -> string): KeyedFold.Rules<string, string> {
    KeyedFold.Rules((s: string) => same(TrimJs(s)), TrimJs, (kept: string, again: string) => kept)
  }

  /** The ordered union, two strings being the same when `same` makes them equal. */
  ghost function Union(same: string -> string, values: seq<string>): seq<string> {
    Dedup(Rules(same), NonBlank(values))
  }

  lemma RulesLawful(same: string -> string)
    ensures Lawful(Rules(same))
  {
  }

  lemma NonBlankOneMore(values: seq<string>, s: string)
    ensures NonBlank(values + [s]) == NonBlank(values) + (if Blank(s) then [] else [s])
  {
    hide Blank;
    assert (values + [s])[..|values|] == values;
  }

  lemma {:induction false} NonBlankAppend(xs: seq<string>, ys: seq<string>)
    ensures NonBlank(xs + ys) == NonBlank(xs) + NonBlank(ys)
  {
    hide Blank, NonBlank;
    if ys == [] {
      assert xs + ys == xs && NonBlank(ys) == [] by { NoneBlank(); }
    } else {
      var init, last := ys[..|ys| - 1], ys[|ys| - 1];
      NonBlankAppend(xs, init);
      NonBlankOneMore(init, last);
      NonBlankOneMore(xs + init, last);
      assert ys == init + [last] && xs + ys == xs + init + [last];
    }
  }

  lemma NoneBlank()
    ensures NonBlank([]) == []
  {
  }

  lemma {:induction false} NonBlankAll(values: seq<string>)
    requires forall i :: 0 <= i < |values| ==> !Blank(values[i])
    ensures NonBlank(values) == values
  {
    hide Blank;
    if values != [] {
      NonBlankAll(values[..|values| - 1]);
    }
  }

  /** No blank survives, and everything that survives is trimmed. */
  lemma {:induction false} UnionShape(same: string -> string, values: seq<string>)
    ensures forall i :: 0 <= i < |Union(same, values)| ==>
              !Blank(Union(same, values)[i]) && TrimJs(Union(same, values)[i]) == Union(same, values)[i]
  {
    hide TrimJs, Blank, Dedup;
    if values == [] {
      NothingMerged(Rules(same));
    } else {
      var n := |values| - 1;
      UnionShape(same, values[..n]);
      UnionStep(same, values, n);
      assert values[..n + 1] == values;
      if !Blank(values[n]) {
        TrimTwice(values[n]);
        NotBlank(values[n]);
      }
    }
  }

  lemma TrimTwice(s: string)
    ensures TrimJs(TrimJs(s)) == TrimJs(s)
  {
    hide TrimLeft, TrimRight;
  }

  lemma NotBlank(s: string)
    requires !Blank(s)
    ensures TrimJs(s) != "" && !Blank(TrimJs(s))
  {
    hide TrimLeft, TrimRight;
  }

  /** Adding to a union is the union of everything. */
  lemma UnionIncremental(same: string -> string, xs: seq<string>, ys: seq<string>)
    ensures Union(same, Union(same, xs) + ys) == Union(same, xs + ys)
    ensures Union(same, Union(same, xs)) == Union(same, xs)
  {
    hide Dedup, Lawful, Blank, NonBlank, Rules, TrimJs;
    RulesLawful(same);
    UnionShape(same, xs);
    NonBlankAll(Union(same, xs));
    NonBlankAppend(Union(same, xs), ys);
    NonBlankAppend(xs, ys);
    Incremental(Rules(same), NonBlank(xs), NonBlank(ys));
  }

  lemma UnionStep(same: string -> string, values: seq<string>, n: nat)
    requires n < |values|
    ensures Union(same, values[..n + 1])
            == if Blank(values[n]) then Union(same, values[..n]) else Step(Union(same, values[..n]), Rules(same), values[n])
  {
    hide Blank, Rules;
    assert values[..n + 1][..n] == values[..n];
    var before, after := NonBlank(values[..n]), NonBlank(values[..n + 1]);
    if !Blank(values[n]) {
      assert after == before + [values[n]];
      DedupStep(Rules(same), after, |before|);
      assert after[..|before|] == before && after[..|before| + 1] == after;
    } else {
      assert after == before;
    }
  }

  /** Some non-blank value has the key. */
  predicate Occurs(same: string -> string, values: seq<string>, key: string) {
    exists m :: 0 <= m < |values| && !Blank(values[m]) && same(TrimJs(values[m])) == key
  }

  predicate Held(same: string -> string, held: seq<string>, key: string) {
    exists i :: 0 <= i < |held| && same(TrimJs(held[i])) == key
  }

  /** The values that are not blank and whose key does not occur before, trimmed. */
  function Firsts(same: string -> string, values: seq<string>): seq<string> {
    if values == [] then []
    else
      var n := |values| - 1;
      var before := Firsts(same, values[..n]);
      if Blank(values[n]) || Occurs(same, values[..n], same(TrimJs(values[n]))) then before else before + [TrimJs(values[n])]
  }

  lemma OccursLast(same: string -> string, values: seq<string>, key: string)
    requires values != []
    ensures var n := |values| - 1;
            Occurs(same, values, key) <==> Occurs(same, values[..n], key) || (!Blank(values[n]) && same(TrimJs(values[n])) == key)
  {
    hide Blank, TrimJs;
    var n := |values| - 1;
    if Occurs(same, values[..n], key) {
      var m :| 0 <= m < n && !Blank(values[..n][m]) && same(TrimJs(values[..n][m])) == key;
      assert values[m] == values[..n][m];
    }
    if Occurs(same, values, key) {
      var m :| 0 <= m < |values| && !Blank(values[m]) && same(TrimJs(values[m])) == key;
      assert m < n ==> values[..n][m] == values[m];
    }
  }

  lemma HeldMore(same: string -> string, held: seq<string>, s: string, key: string)
    ensures Held(same, held + [TrimJs(s)], key) <==> Held(same, held, key) || same(TrimJs(s)) == key
  {
    TrimTwice(s);
    hide TrimJs;
    var all := held + [TrimJs(s)];
    assert all[|held|] == TrimJs(s);
    if Held(same, held, key) {
      var i :| 0 <= i < |held| && same(TrimJs(held[i])) == key;
      assert all[i] == held[i];
    }
  }

  /** The union is made of the first values of every key, trimmed and in order, and of nothing
      else. */
  lemma {:induction false} UnionMeaning(same: string -> string, values: seq<string>)
    ensures Union(same, values) == Firsts(same, values)
    ensures forall key :: Held(same, Union(same, values), key) <==> Occurs(same, values, key)
  {
    hide Union, Step, TrimJs, Blank, Held, Occurs;
    if values == [] {
      NoUnion(same);
      NothingHeld(same);
    } else {
      var n := |values| - 1;
      var init, last := values[..n], values[n];
      UnionMeaning(same, init);
      assert values[..n + 1] == values;
      UnionStep(same, values, n);
      HeldAdds(same, Union(same, init), last);
      forall key
        ensures Held(same, Union(same, values), key) <==> Occurs(same, values, key)
      {
        OccursLast(same, values, key);
        HeldMore(same, Union(same, init), last, key);
      }
    }
  }

  lemma NothingHeld(same: string -> string)
    ensures forall key :: !Held(same, [], key) && !Occurs(same, [], key)
  {
  }

  lemma HeldAdds(same: string -> string, held: seq<string>, s: string)
    ensures Step(held, Rules(same), s) == if Held(same, held, same(TrimJs(s))) then held else held + [TrimJs(s)]
  {
    hide TrimJs, Step;
    UnionAdds(same, held, s);
  }

  function Identity(s: string): string { s }

  /** A string whose key is new is appended, trimmed; one whose key is known is dropped. */
  lemma UnionAdds(same: string -> string, held: seq<string>, s: string)
    ensures var known := exists i :: 0 <= i < |held| && same(TrimJs(held[i])) == same(TrimJs(s));
            Step(held, Rules(same), s) == if known then held else held + [TrimJs(s)]
  {
    hide TrimJs;
    var i := IndexOfKey(held, Rules(same), same(TrimJs(s)));
  }

  /** The loop of `uniqueEvidenceSignals`: case does not matter. */
  method UniqueEvidenceSignals(values: seq<string>) returns (output: seq<string>)
    ensures output == Union(LowerJs, values)
  {
    hide TrimJs, LowerJs, Union, Step;
    NoUnion(LowerJs);
    var seen: set<string> := {};
    output := [];
    for n := 0 to |values|
      invariant output == Union(LowerJs, values[..n])
      invariant forall i :: 0 <= i < |output| ==> LowerJs(TrimJs(output[i])) in seen
      invariant forall k :: k in seen ==> exists i :: 0 <= i < |output| && LowerJs(TrimJs(output[i])) == k
    {
      UnionStep(LowerJs, values, n);
      UnionAdds(LowerJs, output, values[n]);
      TrimTwice(values[n]);
      var normalized := TrimJs(values[n]);
      if normalized != "" {
        var key := LowerJs(normalized);
        if key !in seen {
          ghost var before := output;
          seen := seen + {key};
          output := output + [normalized];
          assert output[|before|] == normalized;
          assert forall i :: 0 <= i < |before| ==> output[i] == before[i];
        }
      }
    }
    assert values[..|values|] == values;
  }

  lemma NoUnion(same: string -> string)
    ensures Union(same, []) == []
  {
  }

  /** The two loops of `mergeUniqueStrings`, through a JavaScript set. */
  method MergeUniqueStrings(base: seq<string>, next: seq<string>) returns (merged: seq<string>)
    ensures merged == Union(Identity, base + next)
  {
    hide Union;
    NoUnion(Identity);
    merged := AddAll([], [], base);
    assert [] + base == base;
    merged := AddAll(base, merged, next);
  }

  /** One loop: `values` added to the set that holds the union of `before`. */
  method AddAll(ghost before: seq<string>, held: seq<string>, values: seq<string>) returns (merged: seq<string>)
    requires held == Union(Identity, before)
    ensures merged == Union(Identity, before + values)
  {
    hide TrimJs, Union, Step;
    merged := held;
    assert before + values[..0] == before;
    for n := 0 to |values|
      invariant merged == Union(Identity, before + values[..n])
    {
      ghost var m := |before| + n;
      assert (before + values)[..m] == before + values[..n] && (before + values)[..m + 1] == before + values[..n + 1];
      UnionStep(Identity, before + values, m);
      UnionShape(Identity, before + values[..n]);
      UnionAdds(Identity, merged, values[n]);
      var normalized := TrimJs(values[n]);
      if |normalized| > 0 && normalized !in merged {
        merged := merged + [normalized];
      }
    }
    assert before + values[..|values|] == before + values;
  }

  /** The union of all the lists, one after the other. */
  function Concat(lists: seq<seq<string>>): seq<string> {
    if lists == [] then [] else Concat(lists[..|lists| - 1]) + lists[|lists| - 1]
  }
}
