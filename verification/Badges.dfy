/** Badges deduplicated by name: the most valuable badge of each name survives. */
module Badges {
  import opened Common
  import opened Text
  import opened KeyedFold

  datatype Rarity = Common | Uncommon | Rare | Epic | Legendary | Mythic | UnknownRarity

  datatype Badge = Badge(
    id: string, name: string, rarity: Rarity, description: string, unlockCondition: string, icon: string,
    unlocked: bool, earnedAt: Option<Stamp>, progress: Option<real>, evidencePrIds: seq<string>, rarityScore: Option<real>)

  // ----- The key -----

  predicate IsNameChar(c: char) { 'a' <= c <= 'z' || IsDigit(c) }

  predicate IsNameGap(c: char) { !IsNameChar(c) }

  function BadgeKey(b: Badge): string {
    var name := TrimJs(Squeeze(LowerJs(b.name), IsNameGap));
    if name != "" then name else b.id
  }

  /** The words of a badge's name: runs of letters and digits, case ignored. */
  function NameWords(b: Badge): seq<string> { Tokens(LowerJs(b.name), IsNameGap) }

  /** Two named badges have the same key exactly when their names are made of the same words; a
      badge whose name has no words goes by its identifier. */
  lemma SameBadge(a: Badge, b: Badge)
    ensures NameWords(a) != [] && NameWords(b) != [] ==> (BadgeKey(a) == BadgeKey(b) <==> NameWords(a) == NameWords(b))
    ensures NameWords(a) == [] ==> BadgeKey(a) == a.id
  {
    hide Tokens, Squeeze, TrimJs, Spaced;
    KeyIsWords(a);
    KeyIsWords(b);
    SpacedInjective(NameWords(a), NameWords(b));
  }

  lemma KeyIsWords(b: Badge)
    ensures BadgeKey(b) == if NameWords(b) != [] then Spaced(NameWords(b)) else b.id
    ensures forall i :: 0 <= i < |NameWords(b)| ==> NameWords(b)[i] != "" && ' ' !in NameWords(b)[i]
  {
    hide Tokens, Squeeze, TrimJs, Spaced;
    SqueezedAndTrimmed(LowerJs(b.name), IsNameGap);
    TokensAreWords(LowerJs(b.name), IsNameGap);
    NoWords();
    SpacedInjective(NameWords(b), []);
  }

  // ----- The preference -----

  function Weight(r: Rarity): int {
    match r
    case Common => 1
    case Uncommon => 2
    case Rare => 3
    case Epic => 4
    case Legendary => 5
    case Mythic => 6
    case UnknownRarity => 0
  }

  function ProgressOf(b: Badge): real {
    if b.progress.Some? then b.progress.value else if b.unlocked then 100.0 else 0.0
  }

  function SafeTime(s: Option<Stamp>): int {
    if s.Some? && s.value.text != "" && s.value.millis.Some? then s.value.millis.value else 0
  }

  function RarityScore(b: Badge): real { if b.rarityScore.Some? then b.rarityScore.value else 0.0 }

  predicate IsPreferred(next: Badge, current: Badge) {
    if next.unlocked != current.unlocked then next.unlocked
    else if Weight(next.rarity) != Weight(current.rarity) then Weight(next.rarity) > Weight(current.rarity)
    else if ProgressOf(next) != ProgressOf(current) then ProgressOf(next) > ProgressOf(current)
    else if SafeTime(next.earnedAt) != SafeTime(current.earnedAt) then SafeTime(next.earnedAt) > SafeTime(current.earnedAt)
    else if |next.evidencePrIds| != |current.evidencePrIds| then |next.evidencePrIds| > |current.evidencePrIds|
    else RarityScore(next) > RarityScore(current)
  }

  /** The preference compares one rank per badge, so it has no cycles. */
  lemma PreferenceRanked()
    ensures Ranked(IsPreferred)
  {
    hide Weight, ProgressOf, SafeTime, RarityScore;
  }

  const RARITIES: seq<Rarity> := [UnknownRarity, Common, Uncommon, Rare, Epic, Legendary, Mythic]

  /** Later in the list of rarities. */
  ghost predicate Rarer(a: Rarity, b: Rarity) {
    exists i, j :: 0 <= j < i < |RARITIES| && RARITIES[i] == a && RARITIES[j] == b
  }

  lemma WeightByRarity(a: Rarity, b: Rarity)
    ensures Rarer(a, b) <==> Weight(a) > Weight(b)
    ensures Weight(a) == Weight(b) <==> a == b
  {
    assert forall i :: 0 <= i < |RARITIES| ==> Weight(RARITIES[i]) == i;
    assert RARITIES[Weight(a)] == a && RARITIES[Weight(b)] == b;
  }

  /** The order in which the criteria count: an unlocked badge is never displaced by a locked one;
      then the rarer, the further progressed, the later earned, the better evidenced, and the
      higher scored one wins; a badge that is better in nothing does not win. */
  lemma PreferenceOrder(a: Badge, b: Badge)
    ensures a.unlocked && !b.unlocked ==> IsPreferred(a, b) && !IsPreferred(b, a)
    ensures a.unlocked == b.unlocked && Rarer(a.rarity, b.rarity) ==> IsPreferred(a, b) && !IsPreferred(b, a)
    ensures a.unlocked == b.unlocked && a.rarity == b.rarity ==>
              var p := if a.progress.Some? then a.progress.value else if a.unlocked then 100.0 else 0.0;
              var q := if b.progress.Some? then b.progress.value else if b.unlocked then 100.0 else 0.0;
              && (p > q ==> IsPreferred(a, b) && !IsPreferred(b, a))
              && (p == q ==>
                    && (EarnedAt(a) > EarnedAt(b) ==> IsPreferred(a, b) && !IsPreferred(b, a))
                    && (EarnedAt(a) == EarnedAt(b) ==>
                          && (|a.evidencePrIds| > |b.evidencePrIds| ==> IsPreferred(a, b) && !IsPreferred(b, a))
                          && (|a.evidencePrIds| == |b.evidencePrIds| ==>
                                var x := if a.rarityScore.Some? then a.rarityScore.value else 0.0;
                                var y := if b.rarityScore.Some? then b.rarityScore.value else 0.0;
                                IsPreferred(a, b) <==> x > y)))
  {
    WeightByRarity(a.rarity, b.rarity);
    WeightByRarity(b.rarity, a.rarity);
  }

  /** An absent, empty or unreadable date counts as the epoch. */
  function EarnedAt(b: Badge): int {
    match b.earnedAt
    case Some(Stamp(text, Some(millis))) => if text == "" then 0 else millis
    case _ => 0
  }

  // ----- The fold -----

  function Better(current: Badge, next: Badge): Badge { if IsPreferred(next, current) then next else current }

  ghost const RULES: Rules<Badge, string> := Rules(BadgeKey, (b: Badge) => b, Better)

  lemma RulesLawful()
    ensures Lawful(RULES)
  {
    hide IsPreferred, BadgeKey;
  }

  method DeduplicateBadgesByName(badges: seq<Badge>) returns (r: seq<Badge>)
    ensures r == Dedup(RULES, badges)
  {
    hide IsPreferred, BadgeKey;
    RulesLawful();
    var keyOrder: seq<string> := [];
    var bestByKey: map<string, Badge> := map[];
    for n := 0 to |badges|
      invariant Represents(RULES, Dedup(RULES, badges[..n]), keyOrder, bestByKey)
    {
      var badge := badges[n];
      var key := BadgeKey(badge);
      DedupStep(RULES, badges, n);
      RepresentsStep(RULES, Dedup(RULES, badges[..n]), keyOrder, bestByKey, badge);
      if key !in bestByKey {
        bestByKey := bestByKey[key := badge];
        keyOrder := keyOrder + [key];
      } else {
        var existing := bestByKey[key];
        if IsPreferred(badge, existing) {
          bestByKey := bestByKey[key := badge];
        } else {
          assert bestByKey[key := existing] == bestByKey;
        }
      }
    }
    assert badges[..|badges|] == badges;
    r := [];
    for i := 0 to |keyOrder|
      invariant r == Dedup(RULES, badges)[..i]
    {
      r := r + [bestByKey[keyOrder[i]]];
    }
  }

  // ----- What survives -----

  lemma {:induction false} SurvivorOfGroup(group: seq<Badge>) returns (i: nat)
    requires group != []
    ensures FirstBest(IsPreferred, group, i) && Merged(RULES, group) == group[i]
  {
    hide IsPreferred;
    PreferenceRanked();
    var n := |group| - 1;
    if n == 0 {
      i := 0;
    } else {
      var init := group[..n];
      i := SurvivorOfGroup(init);
      FirstBestStep(IsPreferred, init, i, group[n]);
      assert group == init + [group[n]];
      i := if IsPreferred(group[n], init[i]) then n else i;
    }
  }

  /** One badge per name, in the order the names first appeared; each is the first of the
      badges of that name to which no other one is preferred. */
  lemma SurvivorsAreBest(badges: seq<Badge>)
    ensures var r := Dedup(RULES, badges);
            && Distinct(RULES, r) && Keys(RULES, r) == FirstSeen(Keys(RULES, badges))
            && forall i :: 0 <= i < |r| ==> IsFirstBest(IsPreferred, Group(RULES, badges, RULES.key(r[i])), r[i])
  {
    hide IsPreferred, BadgeKey, FirstBest, Group, Dedup;
    RulesLawful();
    Meaning(RULES, badges);
    var r := Dedup(RULES, badges);
    forall i | 0 <= i < |r|
      ensures IsFirstBest(IsPreferred, Group(RULES, badges, RULES.key(r[i])), r[i])
    {
      var m := SurvivorOfGroup(Group(RULES, badges, RULES.key(r[i])));
    }
  }

  /** Deduplicating in portions is deduplicating at once. */
  lemma BadgesIncremental(xs: seq<Badge>, ys: seq<Badge>)
    ensures Dedup(RULES, Dedup(RULES, xs) + ys) == Dedup(RULES, xs + ys)
    ensures Dedup(RULES, Dedup(RULES, xs)) == Dedup(RULES, xs)
  {
    RulesLawful();
    Incremental(RULES, xs, ys);
  }
}
