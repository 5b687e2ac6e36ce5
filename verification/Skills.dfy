/** Skill nodes deduplicated by category: the highest score of each category survives. */
module Skills {
  import opened Common
  import opened Text
  import opened KeyedFold

  datatype SkillNode = SkillNode(
    category: string, score: real, delta: real, note: string,
    evidenceSource: Option<string>, confidence: Option<real>, evidenceState: Option<string>)

  // ----- The key -----

  predicate IsMark(c: char) { c == '_' || c == '-' }

  function NormalizeSkillToken(value: string): string {
    var spaced := Squeeze(LowerJs(value), IsMark);
    var t := TrimJs(Squeeze(spaced, IsJsSpace));
    if t == "back end" then "backend"
    else if t == "front end" then "frontend"
    else if t == "dev ops" then "devops"
    else if t == "ci cd" || t == "ci/cd" then "cicd"
    else if t == "quality assurance" || t == "qa" then "testing"
    else t
  }

  function SkillKey(s: SkillNode): string {
    var t := NormalizeSkillToken(s.category);
    if t == "devops" then "infrastructure" else t
  }

  /** The words of a category: underscores, hyphens and white space separate, case is ignored. */
  function CategoryWords(category: string): seq<string> {
    Tokens(LowerJs(category), IsWordGap)
  }

  predicate IsWordGap(c: char) { c == '_' || c == '-' || IsJsSpace(c) }

  /** Spellings of one category. */
  function Canonical(words: seq<string>): seq<string> {
    if words == ["back", "end"] then ["backend"]
    else if words == ["front", "end"] then ["frontend"]
    else if words == ["dev", "ops"] || words == ["devops"] then ["infrastructure"]
    else if words == ["ci", "cd"] || words == ["ci/cd"] then ["cicd"]
    else if words == ["quality", "assurance"] || words == ["qa"] then ["testing"]
    else words
  }

  lemma CategoryText(category: string)
    ensures TrimJs(Squeeze(Squeeze(LowerJs(category), IsMark), IsJsSpace)) == Spaced(CategoryWords(category))
    ensures Wordy(CategoryWords(category))
  {
    hide Tokens, Squeeze, TrimJs, Spaced;
    var lower := LowerJs(category);
    SqueezedAndTrimmed(Squeeze(lower, IsMark), IsJsSpace);
    TokensOfSqueeze(lower, IsMark, IsJsSpace, IsWordGap);
    TokensAreWords(lower, IsWordGap);
  }

  predicate Wordy(words: seq<string>) { forall i :: 0 <= i < |words| ==> words[i] != "" && ' ' !in words[i] }

  lemma TwoWords(a: string, b: string)
    requires a != "" && b != "" && ' ' !in a && ' ' !in b
    ensures Spaced([a, b]) == a + " " + b && Wordy([a, b]) && Spaced([a]) == a && Wordy([a])
  {
    assert [a, b][1..] == [b];
    assert Join([b], ' ') == b && Join([a, b], ' ') == a + [' '] + b;
  }

  lemma SpacedIs(words: seq<string>, a: string, b: string)
    requires Wordy(words) && a != "" && b != "" && ' ' !in a && ' ' !in b
    ensures Spaced(words) == a + " " + b <==> words == [a, b]
    ensures Spaced(words) == a <==> words == [a]
  {
    hide Spaced;
    TwoWords(a, b);
    SpacedInjective(words, [a, b]);
    SpacedInjective(words, [a]);
  }

  lemma Spellings()
    ensures "back" + " " + "end" == "back end" && "front" + " " + "end" == "front end" && "dev" + " " + "ops" == "dev ops"
    ensures "ci" + " " + "cd" == "ci cd" && "quality" + " " + "assurance" == "quality assurance"
  {
  }

  /** Which words the special spellings are. */
  lemma SpecialWords(words: seq<string>)
    requires Wordy(words)
    ensures Spaced(words) == "back end" <==> words == ["back", "end"]
    ensures Spaced(words) == "front end" <==> words == ["front", "end"]
    ensures Spaced(words) == "dev ops" <==> words == ["dev", "ops"]
    ensures Spaced(words) == "ci cd" <==> words == ["ci", "cd"]
    ensures Spaced(words) == "quality assurance" <==> words == ["quality", "assurance"]
  {
    hide Spaced, Wordy;
    Spellings();
    SpacedIs(words, "back", "end");
    SpacedIs(words, "front", "end");
    SpacedIs(words, "dev", "ops");
    SpacedIs(words, "ci", "cd");
    SpacedIs(words, "quality", "assurance");
  }

  lemma SingleWords(words: seq<string>)
    requires Wordy(words)
    ensures Spaced(words) == "devops" <==> words == ["devops"]
    ensures Spaced(words) == "ci/cd" <==> words == ["ci/cd"]
    ensures Spaced(words) == "qa" <==> words == ["qa"]
  {
    hide Spaced, Wordy;
    SpacedIs(words, "devops", "x");
    SpacedIs(words, "ci/cd", "x");
    SpacedIs(words, "qa", "x");
  }

  lemma CanonicalWords()
    ensures Spaced(["backend"]) == "backend" && Spaced(["frontend"]) == "frontend" && Spaced(["infrastructure"]) == "infrastructure"
    ensures Spaced(["cicd"]) == "cicd" && Spaced(["testing"]) == "testing"
    ensures Wordy(["backend"]) && Wordy(["frontend"]) && Wordy(["infrastructure"]) && Wordy(["cicd"]) && Wordy(["testing"])
  {
    hide Spaced, Wordy;
    TwoWords("backend", "frontend");
    TwoWords("frontend", "infrastructure");
    TwoWords("infrastructure", "cicd");
    TwoWords("cicd", "testing");
    TwoWords("testing", "x");
  }

  /** The key of a category is its words in their canonical spelling. */
  lemma SkillKeyIsWords(s: SkillNode)
    ensures SkillKey(s) == Spaced(Canonical(CategoryWords(s.category))) && Wordy(Canonical(CategoryWords(s.category)))
  {
    hide Squeeze, TrimJs, Spaced, CategoryWords, Wordy;
    CategoryText(s.category);
    SpecialWords(CategoryWords(s.category));
    SingleWords(CategoryWords(s.category));
    CanonicalWords();
  }

  /** Two skills share a category exactly when its words agree up to spelling. */
  lemma SameSkill(a: SkillNode, b: SkillNode)
    ensures SkillKey(a) == SkillKey(b) <==> Canonical(CategoryWords(a.category)) == Canonical(CategoryWords(b.category))
  {
    hide SkillKey, Spaced, Canonical, CategoryWords;
    SkillKeyIsWords(a);
    SkillKeyIsWords(b);
    SpacedInjective(Canonical(CategoryWords(a.category)), Canonical(CategoryWords(b.category)));
  }

  // ----- The fold -----

  function Over<T>(next: Option<T>, existing: Option<T>): Option<T> { if next.Some? then next else existing }

  /** The higher score wins; fields it leaves out keep their earlier value. */
  function Combine(existing: SkillNode, skill: SkillNode): SkillNode {
    if skill.score > existing.score then
      skill.(evidenceSource := Over(skill.evidenceSource, existing.evidenceSource),
             confidence := Over(skill.confidence, existing.confidence),
             evidenceState := Over(skill.evidenceState, existing.evidenceState))
    else existing
  }

  ghost const RULES: Rules<SkillNode, string> := Rules(SkillKey, (s: SkillNode) => s, Combine)

  lemma RulesLawful()
    ensures Lawful(RULES)
  {
    hide NormalizeSkillToken;
  }

  method DeduplicateSkillNodes(skills: seq<SkillNode>) returns (ordered: seq<SkillNode>)
    ensures ordered == Dedup(RULES, skills)
  {
    hide SkillKey, Dedup, Lawful;
    RulesLawful();
    NothingMerged(RULES);
    ordered := [];
    var indexByCategory: map<string, nat> := map[];
    for n := 0 to |skills|
      invariant ordered == Dedup(RULES, skills[..n])
      invariant forall k :: k in indexByCategory ==> indexByCategory[k] < |ordered| && SkillKey(ordered[indexByCategory[k]]) == k
      invariant forall i :: 0 <= i < |ordered| ==> SkillKey(ordered[i]) in indexByCategory
    {
      var skill := skills[n];
      var key := SkillKey(skill);
      DedupStep(RULES, skills, n);
      DedupShape(RULES, skills[..n]);
      if key !in indexByCategory {
        indexByCategory := indexByCategory[key := |ordered|];
        ordered := ordered + [skill];
      } else {
        var existingIndex := indexByCategory[key];
        var existing := ordered[existingIndex];
        StepAt(RULES, ordered, skill, existingIndex);
        if skill.score > existing.score {
          SameCategory(existing, skill);
          ordered := ordered[existingIndex :=
            skill.(evidenceSource := Over(skill.evidenceSource, existing.evidenceSource),
                   confidence := Over(skill.confidence, existing.confidence),
                   evidenceState := Over(skill.evidenceState, existing.evidenceState))];
        }
      }
    }
    assert skills[..|skills|] == skills;
  }

  lemma SameCategory(existing: SkillNode, skill: SkillNode)
    requires SkillKey(existing) == SkillKey(skill)
    ensures SkillKey(Combine(existing, skill)) == SkillKey(existing)
  {
    hide NormalizeSkillToken;
  }

  // ----- What survives -----

  predicate ScoresMore(a: SkillNode, b: SkillNode) { a.score > b.score }

  predicate SameCore(entry: SkillNode, row: SkillNode) {
    entry.category == row.category && entry.score == row.score && entry.delta == row.delta && entry.note == row.note
  }

  lemma {:induction false} SurvivorOfGroup(group: seq<SkillNode>) returns (i: nat)
    requires group != []
    ensures FirstBest(ScoresMore, group, i) && SameCore(Merged(RULES, group), group[i])
  {
    var n := |group| - 1;
    if n == 0 {
      i := 0;
    } else {
      var init := group[..n];
      i := SurvivorOfGroup(init);
      FirstBestStep(ScoresMore, init, i, group[n]);
      assert group == init + [group[n]];
      i := if ScoresMore(group[n], init[i]) then n else i;
    }
  }

  /** The nodes that scored more than all before them. */
  predicate IsRecord(group: seq<SkillNode>, i: nat) {
    i < |group| && forall m :: 0 <= m < i ==> group[m].score < group[i].score
  }

  /** An optional field keeps what the last record that has it says. */
  ghost predicate Carried<T>(value: Option<T>, group: seq<SkillNode>, field: SkillNode -> Option<T>) {
    match value
    case Some(_) => exists i: nat :: CarriedFrom(value, group, field, i)
    case None => forall i: nat :: IsRecord(group, i) ==> field(group[i]).None?
  }

  predicate CarriedFrom<T(==)>(value: Option<T>, group: seq<SkillNode>, field: SkillNode -> Option<T>, i: nat) {
    && IsRecord(group, i) && field(group[i]) == value
    && forall m :: i < m < |group| && IsRecord(group, m) ==> field(group[m]).None?
  }

  lemma RecordsOfPrefix(init: seq<SkillNode>, x: SkillNode, i: nat)
    requires i < |init|
    ensures IsRecord(init + [x], i) <==> IsRecord(init, i)
  {
    var all := init + [x];
    assert all[i] == init[i] && forall m :: 0 <= m < i ==> all[m] == init[m];
  }

  lemma CarriedStep<T>(kept: Option<T>, init: seq<SkillNode>, x: SkillNode, field: SkillNode -> Option<T>)
    requires Carried(kept, init, field)
    ensures Carried(if IsRecord(init + [x], |init|) then Over(field(x), kept) else kept, init + [x], field)
  {
    hide IsRecord;
    var n, all := |init|, init + [x];
    assert all[n] == x;
    forall i: nat | i < n
      ensures IsRecord(all, i) <==> IsRecord(init, i)
      ensures all[i] == init[i]
    {
      RecordsOfPrefix(init, x, i);
    }
    RecordsAreInside(init);
    RecordsAreInside(all);
    if IsRecord(all, n) && field(x).Some? {
      assert CarriedFrom(field(x), all, field, n);
    } else if kept.Some? {
      var i: nat :| CarriedFrom(kept, init, field, i);
      assert CarriedFrom(kept, all, field, i);
    }
  }

  lemma RecordsAreInside(group: seq<SkillNode>)
    ensures forall i: nat :: IsRecord(group, i) ==> i < |group|
  {
  }

  lemma RecordRaisesScore(init: seq<SkillNode>, x: SkillNode)
    requires init != []
    ensures IsRecord(init + [x], |init|) <==> x.score > Merged(RULES, init).score
  {
    hide Merged;
    var i := SurvivorOfGroup(init);
    var all := init + [x];
    assert all[|init|] == x && forall m :: 0 <= m < |init| ==> all[m] == init[m];
  }

  lemma {:induction false} FieldOfGroup<T>(group: seq<SkillNode>, field: SkillNode -> Option<T>)
    requires group != []
    requires forall a, b :: field(Combine(a, b)) == if b.score > a.score then Over(field(b), field(a)) else field(a)
    ensures Carried(field(Merged(RULES, group)), group, field)
  {
    hide Combine, Carried, Over;
    var n := |group| - 1;
    var init := group[..n];
    if n == 0 {
      FieldOfFirst(group[0], field);
      assert group == [group[0]];
    } else {
      assert group == init + [group[n]];
      FieldOfGroup(init, field);
      RecordRaisesScore(init, group[n]);
      CarriedStep(field(Merged(RULES, init)), init, group[n], field);
    }
  }

  lemma FieldOfFirst<T>(x: SkillNode, field: SkillNode -> Option<T>)
    ensures Carried(field(x), [x], field)
  {
    assert IsRecord([x], 0);
    if field(x).Some? {
      assert CarriedFrom(field(x), [x], field, 0);
    }
  }

  lemma FieldsOfGroup(group: seq<SkillNode>)
    requires group != []
    ensures var e := Merged(RULES, group);
            && Carried(e.evidenceSource, group, (s: SkillNode) => s.evidenceSource)
            && Carried(e.confidence, group, (s: SkillNode) => s.confidence)
            && Carried(e.evidenceState, group, (s: SkillNode) => s.evidenceState)
  {
    hide Carried, Merged;
    FieldOfGroup(group, (s: SkillNode) => s.evidenceSource);
    FieldOfGroup(group, (s: SkillNode) => s.confidence);
    FieldOfGroup(group, (s: SkillNode) => s.evidenceState);
  }

  /** Each category keeps its first highest-scoring node; an optional field that this node
      leaves out is filled from the last node that raised the score and has it. */
  lemma SurvivorsScoreHighest(skills: seq<SkillNode>, i: nat) returns (m: nat)
    requires i < |Dedup(RULES, skills)|
    ensures var entry := Dedup(RULES, skills)[i];
            var group := Group(RULES, skills, RULES.key(entry));
            && FirstBest(ScoresMore, group, m) && SameCore(entry, group[m])
            && Carried(entry.evidenceSource, group, (s: SkillNode) => s.evidenceSource)
            && Carried(entry.confidence, group, (s: SkillNode) => s.confidence)
            && Carried(entry.evidenceState, group, (s: SkillNode) => s.evidenceState)
  {
    hide Dedup, SkillKey, Carried, FirstBest;
    RulesLawful();
    Meaning(RULES, skills);
    var group := Group(RULES, skills, RULES.key(Dedup(RULES, skills)[i]));
    m := SurvivorOfGroup(group);
    FieldsOfGroup(group);
  }

  /** Deduplicating in portions is deduplicating at once. */
  lemma SkillsIncremental(xs: seq<SkillNode>, ys: seq<SkillNode>)
    ensures Dedup(RULES, Dedup(RULES, xs) + ys) == Dedup(RULES, xs + ys)
    ensures Dedup(RULES, Dedup(RULES, xs)) == Dedup(RULES, xs)
  {
    RulesLawful();
    Incremental(RULES, xs, ys);
  }
}
