/** The career recommendation engine (`server/services/careers.ts`): the user profile built
    from an assessment and journal signals, the three-channel weighted similarity between a
    profile and a career, and the ranked top ten that is saved. */
module Careers {
  import opened Optional
  import opened Seqs
  import opened Text
  import opened Schema
  import opened Tally
  import opened Ranking

  // ---------------------------------------------------------------------------
  // The user profile (`createUserVector`)

  /** The profile a career is compared against: the five assessment traits and the
      frequency of every theme and skill label across the journal entries. */
  datatype Profile = Profile(personality: TraitVector, interests: FreqTable, skills: FreqTable)

  /** `createUserVector`: the traits are copied, and each label's frequency is the number
      of times it occurs across the entries' label lists. */
  function UserVector(assessment: TraitVector, entries: seq<JournalEntry>): (r: Profile)
    ensures r.personality == assessment
    ensures forall name :: Lookup(r.interests, name) == multiset(AllThemes(entries))[name]
    ensures forall name :: Lookup(r.skills, name) == multiset(AllSkills(entries))[name]
    ensures Total(r.interests) == |AllThemes(entries)| && Total(r.skills) == |AllSkills(entries)|
  {
    Profile(assessment, Count(AllThemes(entries)), Count(AllSkills(entries)))
  }

  /** How often `name` occurs in the lists, counted list by list. */
  function OccurrencesIn(lists: seq<seq<string>>, name: string): nat {
    if |lists| == 0 then 0 else multiset(lists[0])[name] + OccurrencesIn(lists[1..], name)
  }

  lemma {:induction false} FlattenOccurrences(lists: seq<seq<string>>, name: string)
    ensures multiset(Flatten(lists))[name] == OccurrencesIn(lists, name)
  {
    if |lists| > 0 {
      FlattenOccurrences(lists[1..], name);
      assert Flatten(lists) == lists[0] + Flatten(lists[1..]);
    }
  }

  /** A theme's frequency is the sum over entries of its occurrences in that entry's
      themes, an entry without themes contributing nothing; the frequencies add up to the
      number of theme labels, and the table lists each label once, in first-seen order. */
  lemma ThemeFrequencies(assessment: TraitVector, entries: seq<JournalEntry>, name: string)
    ensures var lists := seq(|entries|, i requires 0 <= i < |entries| => entries[i].themes.GetOr([]));
            Lookup(UserVector(assessment, entries).interests, name) == OccurrencesIn(lists, name)
    ensures Labels(UserVector(assessment, entries).interests) == Dedup(AllThemes(entries))
  {
    var lists := seq(|entries|, i requires 0 <= i < |entries| => entries[i].themes.GetOr([]));
    FlattenOccurrences(lists, name);
    CountLabels(AllThemes(entries));
  }

  /** The same for skills. */
  lemma SkillFrequencies(assessment: TraitVector, entries: seq<JournalEntry>, name: string)
    ensures var lists := seq(|entries|, i requires 0 <= i < |entries| => entries[i].skills.GetOr([]));
            Lookup(UserVector(assessment, entries).skills, name) == OccurrencesIn(lists, name)
    ensures Labels(UserVector(assessment, entries).skills) == Dedup(AllSkills(entries))
  {
    var lists := seq(|entries|, i requires 0 <= i < |entries| => entries[i].skills.GetOr([]));
    FlattenOccurrences(lists, name);
    CountLabels(AllSkills(entries));
  }

  // ---------------------------------------------------------------------------
  // Skill label normalisation

  /** `toLowerCase().replace(/[^a-z]/g, '_')` on one character. */
  function SkillChar(c: char): (d: char)
    ensures IsLowerLetter(d) || d == '_'
    ensures IsUpper(c) || IsLowerLetter(c) ==> d == LowerChar(c)
    ensures !IsUpper(c) && !IsLowerLetter(c) ==> d == '_'
  {
    var l := LowerChar(c);
    if IsLowerLetter(l) then l else '_'
  }

  /** A career's skill name in the form of a skill label: letters lower-cased and every
      other character replaced by its own `_` (runs are not collapsed). */
  function NormalizeSkill(skill: string): (r: string)
    ensures |r| == |skill|
    ensures forall i :: 0 <= i < |r| ==> IsLowerLetter(r[i]) || r[i] == '_'
    ensures forall i :: 0 <= i < |r| ==> (IsUpper(skill[i]) || IsLowerLetter(skill[i]) <==> IsLowerLetter(r[i]))
    ensures forall i :: 0 <= i < |r| ==>
              r[i] == if IsUpper(skill[i]) || IsLowerLetter(skill[i]) then LowerChar(skill[i]) else '_'
  {
    seq(|skill|, i requires 0 <= i < |skill| => SkillChar(skill[i]))
  }

  /** Normalising twice changes nothing: labels already of the normal form are kept. */
  lemma NormalizeSkillIdempotent(skill: string)
    ensures NormalizeSkill(NormalizeSkill(skill)) == NormalizeSkill(skill)
  {
    var once := NormalizeSkill(skill);
    forall i | 0 <= i < |once| ensures SkillChar(once[i]) == once[i] {
    }
  }

  /** How a catalog skill meets the extractor's label: `Customer Service` becomes the
      `customer_service` label. */
  lemma NormalizeSkillExample()
    ensures NormalizeSkill("Customer Service") == "customer_service"
  {
  }

  // ---------------------------------------------------------------------------
  // Similarity (`calculateCosineSimilarity`)

  const PersonalityWeight: real := 0.6
  const InterestWeight: real := 0.3
  const SkillWeight: real := 0.1

  /** The three running sums of the similarity loops. */
  datatype Acc = Acc(dot: real, userMag: real, careerMag: real)

  /** The sums of `u * c`, `u * u` and `c * c` over the value pairs. */
  function Dot(pairs: seq<(real, real)>): real {
    if |pairs| == 0 then 0.0 else pairs[0].0 * pairs[0].1 + Dot(pairs[1..])
  }

  function UserSquares(pairs: seq<(real, real)>): real {
    if |pairs| == 0 then 0.0 else pairs[0].0 * pairs[0].0 + UserSquares(pairs[1..])
  }

  function CareerSquares(pairs: seq<(real, real)>): real {
    if |pairs| == 0 then 0.0 else pairs[0].1 * pairs[0].1 + CareerSquares(pairs[1..])
  }

  /** One weighted channel loop over (user value, career value) pairs: the weight enters
      the dot product once and each magnitude squared. */
  function Accumulate(acc: Acc, pairs: seq<(real, real)>, w: real): (r: Acc)
    ensures r.dot == acc.dot + w * Dot(pairs)
    ensures r.userMag == acc.userMag + w * w * UserSquares(pairs)
    ensures r.careerMag == acc.careerMag + w * w * CareerSquares(pairs)
    decreases |pairs|
  {
    if |pairs| == 0 then acc
    else
      var u := pairs[0].0;
      var c := pairs[0].1;
      var next := Acc(acc.dot + u * c * w, acc.userMag + (u * w) * (u * w), acc.careerMag + (c * w) * (c * w));
      var rest := pairs[1..];
      WeightedStep(acc.dot, u * c, Dot(rest), w, 1.0);
      WeightedStep(acc.userMag, u * u, UserSquares(rest), w, w);
      WeightedStep(acc.careerMag, c * c, CareerSquares(rest), w, w);
      Accumulate(next, rest, w)
  }

  /** Adding `x * w * v` now and `w * v * tail` later adds `w * v * (x + tail)`. */
  lemma WeightedStep(start: real, x: real, tail: real, w: real, v: real)
    ensures (start + x * w * v) + w * v * tail == start + w * v * (x + tail)
  {
  }

  /** `(freq[name] || 0) / Math.max(total, 1)`: a label's share of all labels. */
  function Share(t: FreqTable, name: string): (r: real)
    ensures 0.0 <= r <= 1.0
    ensures r * (if Total(t) > 1 then Total(t) else 1) as real == Lookup(t, name) as real
  {
    LookupAtMostTotal(t, name);
    var total := if Total(t) > 1 then Total(t) else 1;
    FractionAtMostOne(Lookup(t, name) as real, total as real);
    Lookup(t, name) as real / total as real
  }

  lemma FractionAtMostOne(a: real, b: real)
    requires 0.0 <= a <= b && b > 0.0
    ensures 0.0 <= a / b <= 1.0
  {
    var q := a / b;
    assert q * b == a;
  }

  lemma {:induction false} LookupAtMostTotal(t: FreqTable, name: string)
    ensures Lookup(t, name) <= Total(t)
  {
    if |t| > 0 {
      LookupAtMostTotal(t[1..], name);
    }
  }

  /** The personality pairs, one per trait, or none when the career has no vector. */
  function PersonalityPairs(user: TraitVector, career: Option<TraitVector>): (r: seq<(real, real)>)
    ensures career.None? ==> r == []
    ensures career.Some? ==> |r| == |AllTraits|
    ensures career.Some? ==> forall k :: 0 <= k < |r| ==> r[k] == (user.Get(AllTraits[k]), career.value.Get(AllTraits[k]))
  {
    match career
    case None => []
    case Some(c) => seq(|AllTraits|, k requires 0 <= k < |AllTraits| => (user.Get(AllTraits[k]), c.Get(AllTraits[k])))
  }

  /** One pair per career interest: the user's share of that theme against 1. */
  function InterestPairs(p: Profile, interests: seq<string>): (r: seq<(real, real)>)
    ensures |r| == |interests|
    ensures forall k :: 0 <= k < |r| ==> r[k] == (Share(p.interests, interests[k]), 1.0)
  {
    seq(|interests|, k requires 0 <= k < |interests| => (Share(p.interests, interests[k]), 1.0))
  }

  /** One pair per career skill: the user's share of the normalised skill against 1. */
  function SkillPairs(p: Profile, skills: seq<string>): (r: seq<(real, real)>)
    ensures |r| == |skills|
    ensures forall k :: 0 <= k < |r| ==> r[k] == (Share(p.skills, NormalizeSkill(skills[k])), 1.0)
  {
    seq(|skills|, k requires 0 <= k < |skills| => (Share(p.skills, NormalizeSkill(skills[k])), 1.0))
  }

  /** The three loops, in source order: each channel's terms enter the dot product once
      weighted and the magnitudes with the weight squared, and a missing interest or
      skill list contributes nothing. */
  function Sums(p: Profile, c: Career): (r: Acc)
    ensures var pp := PersonalityPairs(p.personality, c.personalityVector);
            var ip := InterestPairs(p, c.interests.GetOr([]));
            var sp := SkillPairs(p, c.skills.GetOr([]));
            && r.dot == PersonalityWeight * Dot(pp) + InterestWeight * Dot(ip) + SkillWeight * Dot(sp)
            && r.userMag == PersonalityWeight * PersonalityWeight * UserSquares(pp)
                            + InterestWeight * InterestWeight * UserSquares(ip)
                            + SkillWeight * SkillWeight * UserSquares(sp)
            && r.careerMag == PersonalityWeight * PersonalityWeight * CareerSquares(pp)
                              + InterestWeight * InterestWeight * CareerSquares(ip)
                              + SkillWeight * SkillWeight * CareerSquares(sp)
  {
    var a1 := Accumulate(Acc(0.0, 0.0, 0.0), PersonalityPairs(p.personality, c.personalityVector), PersonalityWeight);
    var a2 := Accumulate(a1, InterestPairs(p, c.interests.GetOr([])), InterestWeight);
    Accumulate(a2, SkillPairs(p, c.skills.GetOr([])), SkillWeight)
  }

  function Min(a: real, b: real): real {
    if a <= b then a else b
  }

  /** `calculateCosineSimilarity`, with `Math.sqrt` supplied by the caller: 0 when the
      product of the magnitudes is not positive, else the ratio capped at 1. */
  function Similarity(sqrt: real -> real, p: Profile, c: Career): (r: real)
    ensures r <= 1.0
    ensures var s := Sums(p, c);
            var m := Magnitude(sqrt, s);
            (m <= 0.0 ==> r == 0.0) && (m > 0.0 ==> r * m <= s.dot && (r == 1.0 || r * m == s.dot))
  {
    var s := Sums(p, c);
    CosineRatio(s.dot, Magnitude(sqrt, s))
  }

  /** `Math.sqrt(userMagnitude) * Math.sqrt(careerMagnitude)`: with a true square root,
      the non-negative root of the product of the two squared magnitudes. */
  function Magnitude(sqrt: real -> real, s: Acc): (r: real)
    ensures IsSqrt(sqrt) && s.userMag >= 0.0 && s.careerMag >= 0.0 ==>
              r >= 0.0 && r * r == s.userMag * s.careerMag
  {
    var a := sqrt(s.userMag);
    var b := sqrt(s.careerMag);
    assert (a * b) * (a * b) == (a * a) * (b * b);
    a * b
  }

  /** The last line of the scorer: 0 unless the magnitude is positive, else
      `Math.min(dot / magnitude, 1)`, which is at most 1, never above the exact ratio, and
      equal to it unless capped. */
  function CosineRatio(dot: real, magnitude: real): (r: real)
    ensures r <= 1.0
    ensures magnitude <= 0.0 ==> r == 0.0
    ensures magnitude > 0.0 ==> r * magnitude <= dot && (r == 1.0 || r * magnitude == dot)
  {
    if magnitude > 0.0 then
      var q := dot / magnitude;
      assert q * magnitude == dot;
      assert q > 1.0 ==> (q - 1.0) * magnitude > 0.0;
      Min(q, 1.0)
    else 0.0
  }

  /** A ratio whose numerator exceeds its positive denominator is above 1. */
  lemma RatioAboveOne(d: real, m: real)
    requires 0.0 < m < d
    ensures d / m > 1.0
  {
    var q := d / m;
    assert q * m == d;
  }

  /** `sqrt` is the non-negative square root on the non-negative reals. */
  ghost predicate IsSqrt(sqrt: real -> real) {
    forall x :: x >= 0.0 ==> sqrt(x) >= 0.0 && sqrt(x) * sqrt(x) == x
  }

  /** The sum of squares of a career's reference trait values. */
  function TraitSquares(v: TraitVector): real {
    v.openness * v.openness + v.conscientiousness * v.conscientiousness
    + v.extraversion * v.extraversion + v.agreeableness * v.agreeableness
    + v.neuroticism * v.neuroticism
  }

  function VectorSquares(v: Option<TraitVector>): real {
    match v
    case None => 0.0
    case Some(t) => TraitSquares(t)
  }

  lemma PersonalitySquares(user: TraitVector, career: TraitVector)
    ensures CareerSquares(PersonalityPairs(user, Some(career))) == TraitSquares(career)
    ensures UserSquares(PersonalityPairs(user, Some(career))) == TraitSquares(user)
    ensures Dot(PersonalityPairs(user, Some(career))) ==
            user.openness * career.openness + user.conscientiousness * career.conscientiousness
            + user.extraversion * career.extraversion + user.agreeableness * career.agreeableness
            + user.neuroticism * career.neuroticism
  {
    var ps := PersonalityPairs(user, Some(career));
    var p1 := ps[1..];
    var p2 := p1[1..];
    var p3 := p2[1..];
    var p4 := p3[1..];
    assert p4[1..] == [];
    assert ps[0] == (user.openness, career.openness);
    assert p1[0] == (user.conscientiousness, career.conscientiousness);
    assert p2[0] == (user.extraversion, career.extraversion);
    assert p3[0] == (user.agreeableness, career.agreeableness);
    assert p4[0] == (user.neuroticism, career.neuroticism);
    assert CareerSquares(p4) == career.neuroticism * career.neuroticism;
    assert CareerSquares(p3) == career.agreeableness * career.agreeableness + CareerSquares(p4);
    assert CareerSquares(p2) == career.extraversion * career.extraversion + CareerSquares(p3);
    assert CareerSquares(p1) == career.conscientiousness * career.conscientiousness + CareerSquares(p2);
    assert Dot(p4) == user.neuroticism * career.neuroticism;
    assert Dot(p3) == user.agreeableness * career.agreeableness + Dot(p4);
    assert Dot(p2) == user.extraversion * career.extraversion + Dot(p3);
    assert Dot(p1) == user.conscientiousness * career.conscientiousness + Dot(p2);
    assert UserSquares(p4) == user.neuroticism * user.neuroticism;
    assert UserSquares(p3) == user.agreeableness * user.agreeableness + UserSquares(p4);
    assert UserSquares(p2) == user.extraversion * user.extraversion + UserSquares(p3);
    assert UserSquares(p1) == user.conscientiousness * user.conscientiousness + UserSquares(p2);
  }

  lemma {:induction false} UnitSquares(pairs: seq<(real, real)>)
    requires forall k :: 0 <= k < |pairs| ==> pairs[k].1 == 1.0
    ensures CareerSquares(pairs) == |pairs| as real
  {
    if |pairs| > 0 {
      UnitSquares(pairs[1..]);
    }
  }

  /** The career side of the magnitude depends on the career alone:
      `0.36 * Σ c² + 0.09 * |interests| + 0.01 * |skills|`. */
  lemma CareerMagnitude(p: Profile, c: Career)
    ensures Sums(p, c).careerMag ==
            0.36 * VectorSquares(c.personalityVector)
            + 0.09 * |c.interests.GetOr([])| as real + 0.01 * |c.skills.GetOr([])| as real
  {
    if c.personalityVector.Some? {
      PersonalitySquares(p.personality, c.personalityVector.value);
    }
    UnitSquares(InterestPairs(p, c.interests.GetOr([])));
    UnitSquares(SkillPairs(p, c.skills.GetOr([])));
  }

  lemma {:induction false} DotNonNegative(pairs: seq<(real, real)>)
    requires forall k :: 0 <= k < |pairs| ==> pairs[k].0 >= 0.0 && pairs[k].1 >= 0.0
    ensures Dot(pairs) >= 0.0
  {
    if |pairs| > 0 {
      DotNonNegative(pairs[1..]);
    }
  }

  predicate NonNegative(v: TraitVector) {
    v.openness >= 0.0 && v.conscientiousness >= 0.0 && v.extraversion >= 0.0
    && v.agreeableness >= 0.0 && v.neuroticism >= 0.0
  }

  /** With non-negative traits on both sides every dot-product term is non-negative, so
      the score is at least 0, whatever `sqrt` returns. */
  lemma SimilarityNonNegative(sqrt: real -> real, p: Profile, c: Career)
    requires NonNegative(p.personality)
    requires c.personalityVector.Some? ==> NonNegative(c.personalityVector.value)
    ensures Similarity(sqrt, p, c) >= 0.0
  {
    var pp := PersonalityPairs(p.personality, c.personalityVector);
    var ip := InterestPairs(p, c.interests.GetOr([]));
    var sp := SkillPairs(p, c.skills.GetOr([]));
    DotNonNegative(pp);
    DotNonNegative(ip);
    DotNonNegative(sp);
    var s := Sums(p, c);
    assert s.dot == PersonalityWeight * Dot(pp) + InterestWeight * Dot(ip) + SkillWeight * Dot(sp);
    assert s.dot >= 0.0;
  }

  /** A career with no personality vector, no interests and no skills scores exactly 0,
      whatever the square root returns. */
  lemma EmptyCareerScoresZero(sqrt: real -> real, p: Profile, c: Career)
    requires c.personalityVector.None? && |c.interests.GetOr([])| == 0 && |c.skills.GetOr([])| == 0
    ensures Similarity(sqrt, p, c) == 0.0
  {
    assert Sums(p, c) == Acc(0.0, 0.0, 0.0);
  }

  /** The weight counts once in the dot product but twice in the magnitudes, so a career
      whose vector equals the user's traits, with no interests or skills, has ratio
      `0.6 / 0.36 > 1`: it scores the cap, 1. */
  lemma IdenticalTraitsScoreOne(sqrt: real -> real, p: Profile, c: Career)
    requires IsSqrt(sqrt)
    requires c.personalityVector == Some(p.personality) && TraitSquares(p.personality) > 0.0
    requires |c.interests.GetOr([])| == 0 && |c.skills.GetOr([])| == 0
    ensures Similarity(sqrt, p, c) == 1.0
  {
    var q := TraitSquares(p.personality);
    IdenticalTraitsSums(p, c);
    var s := Sums(p, c);
    var root := sqrt(0.36 * q);
    assert root * root == 0.36 * q;
    assert Magnitude(sqrt, s) == root * root;
    RatioAboveOne(s.dot, root * root);
  }

  /** The sums of a career whose only channel is the user's own trait vector. */
  lemma IdenticalTraitsSums(p: Profile, c: Career)
    requires c.personalityVector == Some(p.personality)
    requires |c.interests.GetOr([])| == 0 && |c.skills.GetOr([])| == 0
    ensures var q := TraitSquares(p.personality);
            Sums(p, c) == Acc(0.6 * q, 0.36 * q, 0.36 * q)
  {
    PersonalitySquares(p.personality, p.personality);
  }

  /** A zero dot product gives score 0. */
  lemma NoOverlapScoresZero(sqrt: real -> real, p: Profile, c: Career)
    requires Sums(p, c).dot == 0.0
    ensures Similarity(sqrt, p, c) == 0.0
  {
  }

  // ---------------------------------------------------------------------------
  // Ranking (`generateCareerRecommendations`)

  /** The number of recommendations kept. */
  const MaxRecommendations: nat := 10

  /** The catalog scored in catalog order (`careers.map(...)`). */
  function Scored(sqrt: real -> real, p: Profile, careers: seq<Career>): (r: seq<Recommendation>)
    ensures |r| == |careers|
    ensures forall k :: 0 <= k < |r| ==> r[k] == Recommendation(careers[k].id, Similarity(sqrt, p, careers[k]))
  {
    seq(|careers|, k requires 0 <= k < |careers| => Recommendation(careers[k].id, Similarity(sqrt, p, careers[k])))
  }

  /** `generateCareerRecommendations` without the store: `None` when nothing is saved
      (no assessment, or an empty catalog), else the list handed to the store. */
  function Generate(sqrt: real -> real, assessment: Option<TraitVector>, entries: seq<JournalEntry>,
                    careers: seq<Career>): (r: Option<seq<Recommendation>>)
    ensures r.None? <==> assessment.None? || |careers| == 0
    ensures r.Some? ==> |r.value| == if |careers| < MaxRecommendations then |careers| else MaxRecommendations
    ensures r.Some? ==> SortedDesc(r.value, MatchScore)
    ensures r.Some? ==> forall x :: x in r.value ==> exists c :: c in careers && c.id == x.careerId
    ensures r.Some? ==> forall x :: x in r.value ==> x.matchScore <= 1.0
  {
    if assessment.None? || |careers| == 0 then None
    else
      var scored := Scored(sqrt, UserVector(assessment.value, entries), careers);
      var sorted := SortDesc(scored, MatchScore);
      var n := if |careers| < MaxRecommendations then |careers| else MaxRecommendations;
      var top := sorted[..n];
      forall x | x in top ensures (exists c :: c in careers && c.id == x.careerId) && x.matchScore <= 1.0 {
        assert x in sorted;
        FromCatalog(sqrt, UserVector(assessment.value, entries), careers, x);
      }
      Some(top)
  }

  /** Every ranked row is a scored catalog career. */
  lemma FromCatalog(sqrt: real -> real, p: Profile, careers: seq<Career>, x: Recommendation)
    requires x in SortDesc(Scored(sqrt, p, careers), MatchScore)
    ensures exists c :: c in careers && c.id == x.careerId
    ensures x.matchScore <= 1.0
  {
    var scored := Scored(sqrt, p, careers);
    assert x in multiset(SortDesc(scored, MatchScore));
    assert x in multiset(scored);
    var k :| 0 <= k < |scored| && scored[k] == x;
    assert careers[k] in careers;
  }

  lemma {:induction false} WithKeyPrefix<T>(xs: seq<T>, key: T -> real, n: nat, k: real)
    requires n <= |xs|
    ensures WithKey(xs[..n], key, k) <= WithKey(xs, key, k)
  {
    assert xs == xs[..n] + xs[n..];
    WithKeyConcat(xs[..n], xs[n..], key, k);
  }

  /** Ties keep catalog order: the saved recommendations with any given score are a
      prefix of the catalog's careers with that score, in catalog order. */
  lemma GenerateStable(sqrt: real -> real, assessment: TraitVector, entries: seq<JournalEntry>,
                       careers: seq<Career>, k: real)
    requires |careers| > 0
    ensures var r := Generate(sqrt, Some(assessment), entries, careers).value;
            var scored := Scored(sqrt, UserVector(assessment, entries), careers);
            WithKey(r, MatchScore, k) <= WithKey(scored, MatchScore, k)
  {
    var scored := Scored(sqrt, UserVector(assessment, entries), careers);
    var sorted := SortDesc(scored, MatchScore);
    var n := if |careers| < MaxRecommendations then |careers| else MaxRecommendations;
    SortDescStable(scored, MatchScore, k);
    WithKeyPrefix(sorted, MatchScore, n, k);
  }

  /** The saved list is a genuine top ten: any scored career left out ranks no higher
      than every saved one. */
  lemma GenerateTop(sqrt: real -> real, assessment: TraitVector, entries: seq<JournalEntry>,
                    careers: seq<Career>, x: Recommendation)
    requires |careers| > 0
    requires x in Scored(sqrt, UserVector(assessment, entries), careers)
    requires x !in Generate(sqrt, Some(assessment), entries, careers).value
    ensures forall y :: y in Generate(sqrt, Some(assessment), entries, careers).value ==> y.matchScore >= x.matchScore
  {
    var scored := Scored(sqrt, UserVector(assessment, entries), careers);
    var n := if |careers| < MaxRecommendations then |careers| else MaxRecommendations;
    TopPrefix(scored, MatchScore, n, x);
  }
}
