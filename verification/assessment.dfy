/** The twenty-item Big Five questionnaire of `client/src/pages/Assessment.tsx`. */
module Questionnaire {
  import opened Schema

  /** One Likert item. A `reverse` item is scored as `6 - answer`. */
  datatype Question = Question(id: int, text: string, measures: Trait, reverse: bool)

  /** The item wordings, in table order. */
  const QuestionTexts: seq<string> := [
    "I prefer to work in groups rather than alone",
    "I like to try new and unusual things",
    "I am always prepared and organized",
    "I am sympathetic to others' feelings",
    "I get easily stressed or anxious",
    "I enjoy being the center of attention",
    "I appreciate art and beauty",
    "I stick to my plans and finish what I start",
    "I trust others easily",
    "I worry about things that might go wrong",
    "I feel comfortable around people",
    "I enjoy abstract or theoretical discussions",
    "I am reliable and can be counted on",
    "I try to be courteous to everyone I meet",
    "I remain calm under pressure",
    "I start conversations with strangers",
    "I have a vivid imagination",
    "I pay attention to details",
    "I am interested in other people's problems",
    "I am easily disturbed by events"
  ]

  const Questions: seq<Question> := [
    Question(1, QuestionTexts[0], Extraversion, false),
    Question(2, QuestionTexts[1], Openness, false),
    Question(3, QuestionTexts[2], Conscientiousness, false),
    Question(4, QuestionTexts[3], Agreeableness, false),
    Question(5, QuestionTexts[4], Neuroticism, false),
    Question(6, QuestionTexts[5], Extraversion, false),
    Question(7, QuestionTexts[6], Openness, false),
    Question(8, QuestionTexts[7], Conscientiousness, false),
    Question(9, QuestionTexts[8], Agreeableness, false),
    Question(10, QuestionTexts[9], Neuroticism, false),
    Question(11, QuestionTexts[10], Extraversion, false),
    Question(12, QuestionTexts[11], Openness, false),
    Question(13, QuestionTexts[12], Conscientiousness, false),
    Question(14, QuestionTexts[13], Agreeableness, false),
    Question(15, QuestionTexts[14], Neuroticism, true),
    Question(16, QuestionTexts[15], Extraversion, false),
    Question(17, QuestionTexts[16], Openness, false),
    Question(18, QuestionTexts[17], Conscientiousness, false),
    Question(19, QuestionTexts[18], Agreeableness, false),
    Question(20, QuestionTexts[19], Neuroticism, false)
  ]

  /** The order in which the table cycles through the traits. */
  const Cycle: seq<Trait> := [Extraversion, Openness, Conscientiousness, Agreeableness, Neuroticism]

  /** The first five items measure the traits in `Cycle` order, and from then on every
      item measures the trait of the item five places earlier. */
  predicate Cycles(qs: seq<Question>) {
    && (forall i :: 0 <= i < |qs| && i < 5 ==> qs[i].measures == Cycle[i])
    && (forall i :: 5 <= i < |qs| ==> qs[i].measures == qs[i - 5].measures)
  }

  /** Ids are 1..20 in table order, and an id determines its question. */
  lemma QuestionIds()
    ensures |Questions| == 20
    ensures forall i :: 0 <= i < |Questions| ==> Questions[i].id == i + 1
  {
  }

  /** The items cycle through the five traits in a fixed order. */
  lemma QuestionsCycle()
    ensures Cycles(Questions)
  {
    // One case per round of five items.
    forall i | 5 <= i < |Questions| ensures Questions[i].measures == Questions[i - 5].measures {
      if i < 10 {
      } else if i < 15 {
      } else {
      }
    }
  }

  /** Question 15 is the only reversed item. */
  lemma QuestionsReverse()
    ensures forall i :: 0 <= i < |Questions| ==> (Questions[i].reverse <==> Questions[i].id == 15)
  {
  }
}

/** The personality assessment page (`client/src/pages/Assessment.tsx`): the scoring of a
    set of answers into five trait values, and the question-by-question walk through the
    table. */
module Assessment {
  import opened Schema
  import opened Questionnaire

  /** The answers given so far, keyed by question id (a plain object `{ [id]: value }`). */
  type Answers = map<int, int>

  /** `answers[id]`, with a missing key read as 0: both are falsy and skipped alike. */
  function AnswerOf(answers: Answers, id: int): int {
    if id in answers then answers[id] else 0
  }

  /** The points an answer earns its trait: the answer itself, or for a reversed item
      its mirror image on the 1..5 scale. */
  function ItemScore(q: Question, answer: int): (r: int)
    ensures !q.reverse ==> r == answer
    ensures q.reverse ==> r + answer == 6
    ensures 1 <= answer <= 5 ==> 1 <= r <= 5
  {
    if q.reverse then 6 - answer else answer
  }

  /** Whether `q` contributes to trait `t`: it belongs to `t` and has a non-zero answer. */
  predicate Counts(q: Question, answers: Answers, t: Trait) {
    q.measures == t && AnswerOf(answers, q.id) != 0
  }

  // ---------------------------------------------------------------------------
  // Reference sums: what each trait's running totals should come to.

  /** The total points the items of `qs` earn trait `t`. */
  function TraitSum(qs: seq<Question>, answers: Answers, t: Trait): int {
    if |qs| == 0 then 0
    else (if Counts(qs[0], answers, t) then ItemScore(qs[0], AnswerOf(answers, qs[0].id)) else 0)
         + TraitSum(qs[1..], answers, t)
  }

  /** How many items of `qs` contribute to trait `t`. */
  function TraitCount(qs: seq<Question>, answers: Answers, t: Trait): nat {
    if |qs| == 0 then 0
    else (if Counts(qs[0], answers, t) then 1 else 0) + TraitCount(qs[1..], answers, t)
  }

  lemma {:induction false} TraitSumSnoc(qs: seq<Question>, q: Question, answers: Answers, t: Trait)
    ensures TraitSum(qs + [q], answers, t) ==
            TraitSum(qs, answers, t) + (if Counts(q, answers, t) then ItemScore(q, AnswerOf(answers, q.id)) else 0)
    ensures TraitCount(qs + [q], answers, t) == TraitCount(qs, answers, t) + (if Counts(q, answers, t) then 1 else 0)
  {
    if |qs| > 0 {
      assert (qs + [q])[1..] == qs[1..] + [q];
      TraitSumSnoc(qs[1..], q, answers, t);
    }
  }

  // ---------------------------------------------------------------------------
  // The scoring loop.

  /** The running `scores` and `counts` objects of `handleComplete`. */
  datatype Totals = Totals(sums: Big5<int>, counts: Big5<int>)

  const NoTotals := Totals(Big5(0, 0, 0, 0, 0), Big5(0, 0, 0, 0, 0))

  /** One iteration of the `questions.forEach` loop: an answered item adds its score to
      its own trait's sum and 1 to its count; nothing else changes. */
  function Step(acc: Totals, q: Question, answers: Answers): (r: Totals)
    ensures forall t :: r.sums.Get(t) ==
              acc.sums.Get(t) + (if Counts(q, answers, t) then ItemScore(q, AnswerOf(answers, q.id)) else 0)
    ensures forall t :: r.counts.Get(t) == acc.counts.Get(t) + (if Counts(q, answers, t) then 1 else 0)
  {
    var answer := AnswerOf(answers, q.id);
    if answer != 0 then
      Totals(acc.sums.With(q.measures, acc.sums.Get(q.measures) + ItemScore(q, answer)),
             acc.counts.With(q.measures, acc.counts.Get(q.measures) + 1))
    else acc
  }

  /** The loop over `qs` in order: every trait's sum and count are the reference sums. */
  function Tally(qs: seq<Question>, answers: Answers): (r: Totals)
    ensures forall t :: r.sums.Get(t) == TraitSum(qs, answers, t)
    ensures forall t :: r.counts.Get(t) == TraitCount(qs, answers, t)
  {
    if |qs| == 0 then NoTotals
    else
      var init := qs[..|qs| - 1];
      var last := qs[|qs| - 1];
      assert qs == init + [last];
      forall t ensures TraitSum(qs, answers, t) == TraitSum(init, answers, t)
                         + (if Counts(last, answers, t) then ItemScore(last, AnswerOf(answers, last.id)) else 0)
                    && TraitCount(qs, answers, t) == TraitCount(init, answers, t)
                         + (if Counts(last, answers, t) then 1 else 0) {
        TraitSumSnoc(init, last, answers, t);
      }
      Step(Tally(init, answers), last, answers)
  }

  /** The normalisation `counts > 0 ? (sum / count) / 5 : 0`: the mean item score scaled
      from 1..5 down to 0.2..1. */
  function Normalize(sum: int, count: int): (r: real)
    ensures count <= 0 ==> r == 0.0
    ensures count > 0 ==> r * 5.0 * count as real == sum as real
  {
    if count > 0 then (sum as real / count as real) / 5.0 else 0.0
  }

  /** `handleComplete`: the five normalised trait scores of a set of answers. */
  function Score(answers: Answers): (r: TraitVector)
    ensures forall t :: r.Get(t) == Normalize(TraitSum(Questions, answers, t), TraitCount(Questions, answers, t))
  {
    var totals := Tally(Questions, answers);
    var n := (t: Trait) => Normalize(totals.sums.Get(t), totals.counts.Get(t));
    Big5(n(Openness), n(Conscientiousness), n(Extraversion), n(Agreeableness), n(Neuroticism))
  }

  // ---------------------------------------------------------------------------
  // Properties of the scoring.

  /** Answers are the radio values 1..5, or 0 for "not answered". */
  predicate InRange(answers: Answers) {
    forall id :: id in answers ==> 0 <= answers[id] <= 5
  }

  /** A reversed item turns an answer in 1..5 into a score in 1..5 as well. */
  lemma ItemScoreInRange(q: Question, answer: int)
    requires 1 <= answer <= 5
    ensures 1 <= ItemScore(q, answer) <= 5
    ensures q.reverse ==> ItemScore(q, answer) + answer == 6
  {
  }

  lemma {:induction false} TraitSumBounds(qs: seq<Question>, answers: Answers, t: Trait)
    requires InRange(answers)
    ensures TraitCount(qs, answers, t) <= TraitSum(qs, answers, t) <= 5 * TraitCount(qs, answers, t)
  {
    if |qs| > 0 {
      TraitSumBounds(qs[1..], answers, t);
      if Counts(qs[0], answers, t) {
        ItemScoreInRange(qs[0], AnswerOf(answers, qs[0].id));
      }
    }
  }

  /** With item scores in 1..5, the normalised value is 0 when nothing counted and lies
      between 1/5 and 1 otherwise. */
  lemma NormalizeBounds(sum: int, count: int)
    requires 0 <= count && count <= sum <= 5 * count
    ensures Normalize(sum, count) == 0.0 <==> count == 0
    ensures count > 0 ==> 0.2 <= Normalize(sum, count) <= 1.0
  {
  }

  /** With answers from the radio buttons, each trait is 0 (nothing answered) or lies
      between 1/5 and 1. */
  lemma ScoreBounds(answers: Answers, t: Trait)
    requires InRange(answers)
    ensures var v := Score(answers).Get(t);
            v == 0.0 || 0.2 <= v <= 1.0
    ensures Score(answers).Get(t) == 0.0 <==> TraitCount(Questions, answers, t) == 0
  {
    TraitSumBounds(Questions, answers, t);
    NormalizeBounds(TraitSum(Questions, answers, t), TraitCount(Questions, answers, t));
  }

  /** The scores depend on the answers only through the value read for each table id. */
  lemma {:induction false} SameReadsSameSums(qs: seq<Question>, a: Answers, b: Answers, t: Trait)
    requires forall q :: q in qs ==> AnswerOf(a, q.id) == AnswerOf(b, q.id)
    ensures TraitSum(qs, a, t) == TraitSum(qs, b, t)
    ensures TraitCount(qs, a, t) == TraitCount(qs, b, t)
  {
    if |qs| > 0 {
      assert qs[0] in qs;
      SameReadsSameSums(qs[1..], a, b, t);
    }
  }

  /** An answer of 0 counts as no answer: it changes neither a sum nor a count. */
  lemma ZeroIsUnanswered(answers: Answers, id: int)
    ensures Score(answers[id := 0]) == Score(answers - {id})
  {
    var a := answers[id := 0];
    var b := answers - {id};
    forall t ensures Score(a).Get(t) == Score(b).Get(t) {
      ZeroReadsAsMissing(Questions, answers, id, t);
    }
    SameDimensionsSame(Score(a), Score(b));
  }

  lemma ZeroReadsAsMissing(qs: seq<Question>, answers: Answers, id: int, t: Trait)
    ensures TraitSum(qs, answers[id := 0], t) == TraitSum(qs, answers - {id}, t)
    ensures TraitCount(qs, answers[id := 0], t) == TraitCount(qs, answers - {id}, t)
  {
    SameReadsSameSums(qs, answers[id := 0], answers - {id}, t);
  }

  predicate DistinctIds(qs: seq<Question>) {
    forall i, j :: 0 <= i < j < |qs| ==> qs[i].id != qs[j].id
  }

  /** Answering a single question of a table with distinct ids makes that item the only
      one counted. */
  lemma {:induction false} SingleAnswer(qs: seq<Question>, q: Question, answer: int, t: Trait)
    requires DistinctIds(qs) && q in qs && answer != 0
    ensures TraitCount(qs, map[q.id := answer], t) == if q.measures == t then 1 else 0
    ensures TraitSum(qs, map[q.id := answer], t) == if q.measures == t then ItemScore(q, answer) else 0
  {
    var m := map[q.id := answer];
    if qs[0] == q {
      forall p | p in qs[1..] ensures p.id !in m {
        var j :| 0 <= j < |qs[1..]| && qs[1..][j] == p;
        assert qs[j + 1] == p;
      }
      NoneAnswered(qs[1..], m, t);
    } else {
      SingleAnswer(qs[1..], q, answer, t);
    }
  }

  lemma {:induction false} NoneAnswered(qs: seq<Question>, m: Answers, t: Trait)
    requires forall p :: p in qs ==> p.id !in m
    ensures TraitCount(qs, m, t) == 0 && TraitSum(qs, m, t) == 0
  {
    if |qs| > 0 {
      assert qs[0] in qs;
      NoneAnswered(qs[1..], m, t);
    }
  }

  /** Answering only question `q` scores only its trait: `answer / 5`, or `(6 - answer) / 5`
      for the reversed item; every other trait is 0. */
  lemma SingleAnswerScore(q: Question, answer: int, t: Trait)
    requires q in Questions && 1 <= answer <= 5
    ensures Score(map[q.id := answer]).Get(t) ==
            if q.measures == t then ItemScore(q, answer) as real / 5.0 else 0.0
  {
    QuestionIdsDistinct();
    SingleAnswerNormalized(Questions, q, answer, t);
  }

  lemma SingleAnswerNormalized(qs: seq<Question>, q: Question, answer: int, t: Trait)
    requires DistinctIds(qs) && q in qs && answer != 0
    ensures Normalize(TraitSum(qs, map[q.id := answer], t), TraitCount(qs, map[q.id := answer], t)) ==
            if q.measures == t then ItemScore(q, answer) as real / 5.0 else 0.0
  {
    SingleAnswer(qs, q, answer, t);
  }

  lemma QuestionIdsDistinct()
    ensures DistinctIds(Questions)
  {
    QuestionIds();
  }

  /** How many items of `qs` measure trait `t`. */
  function PerTrait(qs: seq<Question>, t: Trait): nat {
    if |qs| == 0 then 0 else (if qs[0].measures == t then 1 else 0) + PerTrait(qs[1..], t)
  }

  lemma {:induction false} PerTraitConcat(a: seq<Question>, b: seq<Question>, t: Trait)
    ensures PerTrait(a + b, t) == PerTrait(a, t) + PerTrait(b, t)
  {
    if |a| > 0 {
      assert (a + b)[1..] == a[1..] + b;
      PerTraitConcat(a[1..], b, t);
    } else {
      assert a + b == b;
    }
  }

  /** Five consecutive items of a cycling table measure each trait once. */
  lemma OneRound(b: seq<Question>, t: Trait)
    requires |b| == 5 && Cycles(b)
    ensures PerTrait(b, t) == 1
  {
    var b1 := b[1..];
    var b2 := b1[1..];
    var b3 := b2[1..];
    var b4 := b3[1..];
    assert b1[0] == b[1] && b2[0] == b[2] && b3[0] == b[3] && b4[0] == b[4];
    assert b4[1..] == [];
    assert PerTrait(b4, t) == if b[4].measures == t then 1 else 0;
    assert PerTrait(b3, t) == (if b[3].measures == t then 1 else 0) + PerTrait(b4, t);
    assert PerTrait(b2, t) == (if b[2].measures == t then 1 else 0) + PerTrait(b3, t);
    assert PerTrait(b1, t) == (if b[1].measures == t then 1 else 0) + PerTrait(b2, t);
    assert b[0].measures == Cycle[0] && b[1].measures == Cycle[1] && b[2].measures == Cycle[2];
    assert b[3].measures == Cycle[3] && b[4].measures == Cycle[4];
  }

  /** A cycling table of `5 * m` items measures every trait `m` times. */
  lemma {:induction false} CyclingCount(qs: seq<Question>, m: nat, t: Trait)
    requires |qs| == 5 * m && Cycles(qs)
    ensures PerTrait(qs, t) == m
  {
    if m > 0 {
      var rest := qs[5..];
      forall i | 0 <= i < |rest| && i < 5 ensures rest[i].measures == Cycle[i] {
        assert rest[i] == qs[i + 5];
      }
      forall i | 5 <= i < |rest| ensures rest[i].measures == rest[i - 5].measures {
        assert rest[i] == qs[i + 5] && rest[i - 5] == qs[i];
      }
      forall i | 0 <= i < 5 ensures qs[..5][i].measures == Cycle[i] {
        assert qs[..5][i] == qs[i];
      }
      OneRound(qs[..5], t);
      CyclingCount(rest, m - 1, t);
      assert qs == qs[..5] + rest;
      PerTraitConcat(qs[..5], rest, t);
    }
  }

  /** The table has four items per trait. */
  lemma QuestionTraits(t: Trait)
    ensures PerTrait(Questions, t) == 4
  {
    QuestionsCycle();
    CyclingCount(Questions, 4, t);
  }

  // ---------------------------------------------------------------------------
  // The walk through the questions.

  /** The page state: the index of the question on screen and the answers so far. */
  datatype Quiz = Quiz(current: int, answers: Answers)

  const Start := Quiz(0, map[])

  predicate Valid(q: Quiz) {
    0 <= q.current < |Questions|
  }

  /** `handleAnswerSelect`: records `value` for the question on screen. */
  function SelectAnswer(q: Quiz, value: int): (r: Quiz)
    requires Valid(q)
    ensures r.current == q.current
    ensures AnswerOf(r.answers, Questions[q.current].id) == value
    ensures forall id :: id != Questions[q.current].id ==>
              (id in r.answers <==> id in q.answers) && AnswerOf(r.answers, id) == AnswerOf(q.answers, id)
  {
    q.(answers := q.answers[Questions[q.current].id := value])
  }

  /** What `handleNext` does: move on, or on the last question submit the scores. */
  datatype Advance = Moved(quiz: Quiz) | Completed(scores: TraitVector)

  /** `handleNext` */
  function Next(q: Quiz): (r: Advance)
    requires Valid(q)
    ensures r.Completed? <==> q.current == |Questions| - 1
    ensures r.Moved? ==> Valid(r.quiz) && r.quiz.current == q.current + 1 && r.quiz.answers == q.answers
    ensures r.Completed? ==> r.scores == Score(q.answers)
  {
    if q.current < |Questions| - 1 then Moved(q.(current := q.current + 1))
    else Completed(Score(q.answers))
  }

  /** `handlePrevious` */
  function Previous(q: Quiz): (r: Quiz)
    requires Valid(q)
    ensures Valid(r) && r.answers == q.answers
    ensures r.current == if q.current == 0 then 0 else q.current - 1
  {
    if q.current > 0 then q.(current := q.current - 1) else q
  }

  /** The progress bar value `(currentQuestion + 1) / questions.length * 100`. */
  function Progress(q: Quiz): (r: real)
    requires Valid(q)
    ensures 0.0 < r <= 100.0
    ensures r == 100.0 <==> q.current == |Questions| - 1
    ensures r * 20.0 == (q.current as real + 1.0) * 100.0
  {
    ((q.current + 1) as real / |Questions| as real) * 100.0
  }

  /** Going back after moving forward returns to the same question with the same answers. */
  lemma NextThenPrevious(q: Quiz)
    requires Valid(q) && Next(q).Moved?
    ensures Previous(Next(q).quiz) == q
  {
  }
}
