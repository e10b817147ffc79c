# Career guidance core, modelled in Dafny

This project models the decision logic of a career-guidance web application:

- **Personality assessment.** The user answers a twenty-item Big Five questionnaire. Items are scored, reversed where the item is reversed, and averaged per trait into a 0..1 value.
- **Journal analysis.** Journal entries are analysed into keywords, themes and skills by stop-word filtering and fixed trigger tables.
- **Career matching.** A profile is built from the assessment and the journal labels. The profile is compared with every catalogued career by a three-channel weighted cosine (personality 0.6, interests 0.3, skills 0.1). The top ten careers are kept.
- **Dashboard.** It reports a day streak, a progress percentage and the three best recommendations.
- **Journal page.** It validates new entries, appends writing prompts and shows the three most frequent themes and skills.
- **Career modal.** It splits a roadmap text into non-blank lines.

Everything is pure functions over immutable datatypes. The one exception is the streak loop, which is also a method. Each module follows one source file:

| file | module | source |
|---|---|---|
| `option.dfy` | `Optional` | nullable values (`x \|\| default`) |
| `seqs.dfy` | `Seqs` | sequence helpers: flattening, subsequences, first-occurrence deduplication (`Array.from(new Set(...))`) |
| `text.dfy` | `Text` | JavaScript string operations: `\s`, `\w`, ASCII lower-casing, `trim`, `split`, `join`, `includes` |
| `schema.dfy` | `Schema` | `shared/schema.ts`: traits, journal entries, careers, recommendations |
| `tally.dfy` | `Tally` | object-as-counter frequency tables |
| `ranking.dfy` | `Ranking` | the stable descending sort of `Array.prototype.sort` with a `b - a` comparator |
| `nlp.dfy` | `Nlp` | `server/services/nlp.ts` |
| `assessment.dfy` | `Questionnaire`, `Assessment` | `client/src/pages/Assessment.tsx` |
| `careers.dfy` | `Careers` | `server/services/careers.ts` |
| `dashboard.dfy` | `Dashboard` | `server/routes.ts` |
| `journal.dfy` | `Journal` | `client/src/pages/Journal.tsx` |
| `career_modal.dfy` | `CareerModal` | `client/src/components/CareerModal.tsx` |

Parameters stand in for what the code reads from the outside world:

- `Math.sqrt` is a caller-supplied `sqrt: real -> real`. Lemmas that need it to be a square root require the ghost predicate `IsSqrt`.
- The current time is an integer `today`, in milliseconds.
- The stored assessment, entries, careers and recommendations are passed in as values.

## Model

| member | source | states |
|---|---|---|
| Careers.UserVector | server/services/careers.ts:167-195 | The profile copies the five assessment traits unchanged. Every theme's and skill's frequency equals its number of occurrences across all entries' label lists. The frequencies add up to the number of labels. |
| Careers.ThemeFrequencies | server/services/careers.ts:169-176 | A theme's frequency is the sum over entries of its occurrences in that entry's themes, with a null list counting as empty. The counter's keys are the distinct themes in first-seen order. |
| Careers.SkillFrequencies | server/services/careers.ts:170-182 | The same for skills: per-entry occurrences summed, null lists empty, keys in first-seen order. |
| Careers.NormalizeSkill | server/services/careers.ts:234 | The normalised skill has the same length as the input and only `a`-`z` and `_`. Position by position, an ASCII letter becomes its own lower-case letter and every other character becomes `_`. |
| Careers.NormalizeSkillIdempotent | server/services/careers.ts:234 | Normalising an already normalised skill name changes nothing, so a journal label such as `project_management` matches itself. |
| Careers.Accumulate | server/services/careers.ts:207-241 | A channel loop adds its weight once to the dot product and squared to both magnitudes: dot += w·Σuc, user += w²·Σu², career += w²·Σc². |
| Careers.Share | server/services/careers.ts:221-222 | A label's share is its count divided by `max(total, 1)`, 0 for a label the user never wrote. It always lies in 0..1. |
| Careers.PersonalityPairs | server/services/careers.ts:204-214 | There are no personality terms when the career has no vector. Otherwise there is exactly one (user, career) pair per Big Five trait. |
| Careers.InterestPairs | server/services/careers.ts:219-224 | Each career interest, duplicates included, contributes the user's share of that theme against the career value 1. |
| Careers.SkillPairs | server/services/careers.ts:232-238 | Each career skill contributes the user's share of its normalised name against the career value 1. |
| Careers.Sums | server/services/careers.ts:198-242 | The three loops run one after another from zero. Each channel adds its weight times its dot product, and its weight squared times its squared magnitudes. A missing interest or skill list contributes nothing. |
| Careers.Magnitude | server/services/careers.ts:244 | With a true square root and non-negative squared magnitudes, the magnitude is non-negative and its square is the product of the two squared magnitudes. |
| Careers.CosineRatio | server/services/careers.ts:244-245 | The result is 0 unless the magnitude is positive. Otherwise it is at most 1, at most dot/magnitude, and equal to dot/magnitude unless capped at 1. Together these fix it as `min(dot / magnitude, 1)`. |
| Careers.Similarity | server/services/careers.ts:197-246 | A career's score never exceeds 1. It is 0 when the product of the magnitude roots is not positive, and otherwise is `min(dot / magnitude, 1)` over the three channels' sums. |
| Careers.CareerMagnitude | server/services/careers.ts:211-241 | The career-side magnitude depends on the career alone: 0.36·Σc² + 0.09·(number of interests) + 0.01·(number of skills). |
| Careers.SimilarityNonNegative | server/services/careers.ts:198-245 | With non-negative trait values on both sides, no score is negative, whatever the square root returns. |
| Careers.EmptyCareerScoresZero | server/services/careers.ts:204-245 | A career with no personality vector, no interests and no skills scores exactly 0, whatever the square root returns. |
| Careers.IdenticalTraitsScoreOne | server/services/careers.ts:202-245 | The weight enters the dot product once and the magnitudes squared. So a career whose only channel is the user's own trait vector has ratio 0.6/0.36 > 1 and scores the cap, 1. |
| Careers.NoOverlapScoresZero | server/services/careers.ts:244-245 | A zero dot product gives score 0, whatever the magnitudes. |
| Careers.Scored | server/services/careers.ts:153-157 | Every catalogue career gets exactly one recommendation row: its id and its similarity, in catalogue order. |
| Careers.Generate | server/services/careers.ts:139-165 | Nothing is saved without an assessment or with an empty catalogue. Otherwise the saved list has min(catalogue size, 10) rows, is ordered by descending score, names only catalogue careers and has no score above 1. |
| Careers.GenerateStable | server/services/careers.ts:158 | Ties keep catalogue order: the saved rows with a given score are a prefix of the catalogue's rows with that score, in catalogue order. |
| Careers.GenerateTop | server/services/careers.ts:153-159 | The saved list is a genuine top ten: a scored career left out scores no higher than any saved one. |
| Nlp.FullText | server/services/nlp.ts:7 | The analysed text is the three answers, null read as empty, joined by single spaces and lower-cased. It contains no upper-case letter. |
| Nlp.StripPunctuation | server/services/nlp.ts:30 | Exactly the word characters and whitespace survive, in their original order. Each of them occurs as often as in the input, and nothing else occurs. Text that is already clean is unchanged. |
| Nlp.Qualifying | server/services/nlp.ts:32 | Only tokens longer than three characters that are not stop words are kept, in their original order. |
| Nlp.QualifyingCounts | server/services/nlp.ts:32 | Every occurrence of a qualifying token is kept and every other token is dropped: a token occurs in the result as often as in the input if it qualifies, and not at all otherwise. |
| Nlp.SelectKeywords | server/services/nlp.ts:29-35 | At most ten keywords, none repeated. A word is a keyword exactly when it is one of the first ten qualifying tokens. |
| Nlp.ExtractKeywords | server/services/nlp.ts:19-36 | The keywords of a text are at most ten distinct words made of word characters only. A word is a keyword exactly when it is one of the first ten qualifying tokens of the text. |
| Nlp.KeywordsLimitBeforeDedup | server/services/nlp.ts:32-35 | The ten-word limit applies before duplicates are removed. Ten repetitions of one qualifying word yield just that word, whatever follows. |
| Nlp.QualifyingConcat | server/services/nlp.ts:32 | Filtering commutes with concatenation: the filter looks at each token alone. |
| Nlp.Tokens | server/services/nlp.ts:30-31 | After punctuation is stripped and the text is cut at whitespace, every token consists of word characters only. |
| Nlp.KeywordsFirstOccurrenceOrder | server/services/nlp.ts:35 | Deduplication keeps each keyword's first occurrence, in the order the words first appear. |
| Nlp.BlankTextNoKeywords | server/services/nlp.ts:29-35 | Whitespace-only text yields no keywords. |
| Nlp.Table | server/services/nlp.ts:42-51 | The theme and skill tables keep the source's row names in source order, each row with its own trigger list. |
| Nlp.ThemeNamesDistinct | server/services/nlp.ts:42-51 | The eight theme names are pairwise distinct. |
| Nlp.SkillNamesDistinct | server/services/nlp.ts:65-76 | The ten skill names are pairwise distinct. |
| Nlp.Tag | server/services/nlp.ts:53-57 | A row's name is reported exactly when one of its triggers occurs in the lower-cased text. The reported names keep table order. |
| Nlp.ExtractThemes | server/services/nlp.ts:38-60 | The extracted themes are names from the theme table, each at most once, in table order. |
| Nlp.ExtractSkills | server/services/nlp.ts:62-85 | The extracted skills are names from the skill table, each at most once, in table order. |
| Nlp.TagSpec | server/services/nlp.ts:38-60 | With distinct row names, a label is reported if and only if some trigger of its row occurs at some position of the lower-cased text. Labels appear once each, in table order. |
| Nlp.ExtractThemesSpec | server/services/nlp.ts:38-60 | A theme is extracted if and only if one of its triggers occurs in the text. Themes come without repeats, in the order of the theme table. |
| Nlp.ExtractSkillsSpec | server/services/nlp.ts:62-85 | A skill is extracted if and only if one of its triggers occurs in the text. Skills come without repeats, in the order of the skill table. |
| Nlp.NoLettersNoTags | server/services/nlp.ts:53-57 | Text without ASCII letters matches no row, because every trigger starts with a letter. |
| Nlp.Analyze | server/services/nlp.ts:5-13 | An entry's analysis has at most ten distinct keywords. Its themes and skills come from the two tables, in table order. |
| Nlp.BlankTextNoSignals | server/services/nlp.ts:19-85 | Whitespace-only text yields no keywords, themes or skills. |
| Nlp.EmptyEntryAnalysis | server/services/nlp.ts:7-11 | An entry whose three answers are missing or empty is analysed into three empty lists. |
| Questionnaire.QuestionIds | client/src/pages/Assessment.tsx:19-40 | The questionnaire has twenty items whose ids are 1..20 in order. |
| Questionnaire.QuestionsCycle | client/src/pages/Assessment.tsx:19-40 | The items cycle through extraversion, openness, conscientiousness, agreeableness, neuroticism, in that order, one round of five after another. |
| Questionnaire.QuestionsReverse | client/src/pages/Assessment.tsx:19-40 | Item 15 is the only reversed item. |
| Assessment.QuestionTraits | client/src/pages/Assessment.tsx:19-40 | Each trait is measured by exactly four items. |
| Assessment.ItemScore | client/src/pages/Assessment.tsx:144 | A normal item scores its answer. A reversed item mirrors it, so score and answer add up to 6. An answer in 1..5 scores in 1..5. |
| Assessment.Step | client/src/pages/Assessment.tsx:142-147 | An answered item adds its score to its own trait's sum and 1 to that trait's count. An unanswered item changes nothing, and no other trait changes. |
| Assessment.Tally | client/src/pages/Assessment.tsx:141-148 | After the loop, each trait's sum and count are the per-trait reference sums over the answered items, with reversed items contributing `6 - answer`. |
| Assessment.Normalize | client/src/pages/Assessment.tsx:153 | A trait with no answered item scores 0. Otherwise the score times five times the count is the sum: the mean item score divided by five. |
| Assessment.Score | client/src/pages/Assessment.tsx:123-157 | Each submitted trait value is the normalised mean of the reference sums for that trait. |
| Assessment.ItemScoreInRange | client/src/pages/Assessment.tsx:144 | An answer in 1..5 scores in 1..5. A reversed item's score and its answer add up to 6. |
| Assessment.TraitSumBounds | client/src/pages/Assessment.tsx:141-148 | With answers in 0..5, a trait's sum lies between its count and five times its count. |
| Assessment.ScoreBounds | client/src/pages/Assessment.tsx:141-154 | With answers from the radio buttons, each trait is 0 exactly when none of its items was answered, and otherwise lies between 0.2 and 1. |
| Assessment.ZeroIsUnanswered | client/src/pages/Assessment.tsx:142-143 | An answer of 0 is skipped like a missing one: the scores are the same as with the key absent. |
| Assessment.SingleAnswerScore | client/src/pages/Assessment.tsx:141-154 | Answering one item scores only its trait, at answer/5, or (6 - answer)/5 for a reversed item. Every other trait is 0. |
| Assessment.SelectAnswer | client/src/pages/Assessment.tsx:105-107 | Selecting a value records it for the item on screen. It leaves the position and every other item's answer unchanged. |
| Assessment.Next | client/src/pages/Assessment.tsx:109-115 | On the last item, Next submits the scores of the current answers. Otherwise it moves one item forward and keeps the answers. |
| Assessment.Previous | client/src/pages/Assessment.tsx:117-121 | Previous moves one item back, but not before the first. The answers are kept. |
| Assessment.Progress | client/src/pages/Assessment.tsx:159 | The progress bar is positive, at most 100, equal to 100 exactly on the last item, and proportional to the item's position. |
| Assessment.NextThenPrevious | client/src/pages/Assessment.tsx:109-121 | Moving forward and then back returns to the same item with the same answers. |
| Dashboard.DaysAgo | server/routes.ts:186 | The day difference is the floor of the elapsed milliseconds over one day, also for timestamps in the future. |
| Dashboard.NewestFirst | server/routes.ts:182 | The entries are rearranged, none lost or added, into non-increasing creation time. |
| Dashboard.CalculateStreak | server/routes.ts:177-196 | The streak is the length of the longest prefix of the newest-first entries in which entry i was written exactly i days ago. |
| Dashboard.StreakFrom | server/routes.ts:184-193 | Counting from position i, the run stops at the first entry whose day difference is not its position. |
| Dashboard.Streak | server/routes.ts:177-196 | The streak is the length of the longest run of newest-first entries in which entry i was written exactly i days ago, and no longer than the entry list. |
| Dashboard.StreakUnique | server/routes.ts:184-193 | Any count with the loop's exit property is the streak, so the loop and the recursive definition agree. |
| Dashboard.StreakNeedsEntryToday | server/routes.ts:178-193 | With no entries, or when the newest entry was not written today, the streak is 0. |
| Dashboard.SameDayEndsStreak | server/routes.ts:184-193 | Two entries on the same day end the streak at the first of them, so at most one entry per day is counted. |
| Dashboard.OverallProgress | server/routes.ts:198-207 | Progress is a multiple of 20 between 0 and 100. It is 100 exactly with an assessment and at least ten entries. |
| Dashboard.ProgressParts | server/routes.ts:201-204 | The assessment is worth exactly 40 points. The entries are worth 20 for the first, 20 more at five and 20 more at ten. |
| Dashboard.ProgressMonotone | server/routes.ts:202-204 | Writing more entries never lowers the progress. |
| Dashboard.DashboardStats | server/routes.ts:158-164 | The stats report whether an assessment exists, the entry count, the streak of the entries, the first min(3, n) recommendations, and the overall progress of the assessment flag and entry count. That progress is 100 exactly with an assessment and ten entries. |
| Dashboard.TopShownAreBest | server/routes.ts:162 | When the stored recommendations are best first, a recommendation not shown scores no higher than each shown one. |
| Journal.TopLabels | client/src/pages/Journal.tsx:145-153 | At most three labels are shown per kind. |
| Journal.RankedPrefix | client/src/pages/Journal.tsx:145-148 | Any count-descending rearrangement of a counter with distinct keys gives, in its first n labels, distinct keys in non-increasing count. No key left out has a higher count than a kept one. |
| Journal.TopLabelsSpec | client/src/pages/Journal.tsx:131-153 | The shown labels are distinct labels of the entries, min(3, number of distinct labels) of them, in non-increasing frequency. No label left out is more frequent than a shown one. |
| Journal.Insights | client/src/pages/Journal.tsx:128-156 | No insights are shown before the entries load or when there are none. There are never more than six. |
| Journal.InsightsSplit | client/src/pages/Journal.tsx:145-155 | The insights are the top themes followed by the top skills, each taken from the entries' labels. |
| Journal.ValidateSubmission | client/src/pages/Journal.tsx:100-118 | A submission is refused exactly when the mood is missing or the "enjoyed" answer is blank. Otherwise the mood and the three trimmed answers are sent, with a non-empty "enjoyed" answer. |
| Journal.ValidateIdempotent | client/src/pages/Journal.tsx:112-117 | An accepted submission validates again to itself: trimming is idempotent. |
| Journal.TrimOfTrimmed | client/src/pages/Journal.tsx:114-116 | A string with no whitespace at either end is its own trim. |
| Journal.PromptClick | client/src/pages/Journal.tsx:120-126 | An empty answer becomes the prompt. Otherwise the prompt is appended after exactly one blank line, keeping the answer as a prefix. |
| CareerModal.NonBlankLines | client/src/components/CareerModal.tsx:30 | The kept lines are exactly the non-blank lines, in their original order, each as often as in the input. |
| CareerModal.RoadmapLines | client/src/components/CareerModal.tsx:28-31 | A missing or empty roadmap shows nothing. Otherwise the lines shown are exactly the non-blank newline-separated lines, in order and with repeats kept, none containing a newline. |
| CareerModal.RoadmapRoundTrip | client/src/components/CareerModal.tsx:30 | When no line of a roadmap is blank, joining the shown lines with newlines gives back the roadmap text. |
| CareerModal.BlankRoadmapShowsNothing | client/src/components/CareerModal.tsx:28-31 | A whitespace-only roadmap shows no lines. |
| Tally.Count | server/services/careers.ts:173-182 | The counter built by `freq[x] = (freq[x] \|\| 0) + 1` holds, for every label, its number of occurrences. The counts add up to the list's length. |
| Tally.CountLabels | client/src/pages/Journal.tsx:134-143 | The counter's keys, in enumeration order, are the distinct labels in first-occurrence order. |
| Ranking.SortDesc | client/src/pages/Journal.tsx:146 | Sorting by `b - a` rearranges the list into non-increasing key order without losing or adding elements. |
| Ranking.SortDescStable | server/services/careers.ts:158 | The sort is stable: elements with equal keys keep their relative order. |
| Text.Trim | client/src/pages/Journal.tsx:103 | `trim` removes exactly the leading and trailing whitespace. The result is a contiguous slice with blank margins, and it is empty exactly when the text is blank. |
| Text.JoinSplit | client/src/components/CareerModal.tsx:30 | Splitting at a separator character and joining with it gives back the text. |

## Left out

- Storage, HTTP routes, React rendering, toasts and the query cache are not modelled. The stored assessment, entries, careers and recommendations are parameters, and saving is returning the list to save.
- The career catalogue seed data (`server/services/careers.ts:5-136`) is left out: it is data, not logic, and every property is stated for any catalogue.
- Floating-point rounding is not modelled. Scores, shares and progress are exact reals, and `Math.sqrt` is a parameter.
- `toLowerCase` is modelled on ASCII letters only. Unicode case mapping, including characters whose lower case has a different length, is left out.
- NormalizeSkill: lower-cases ASCII letters only. A non-ASCII character always becomes `_`, whereas `toLowerCase` maps a few, such as the Kelvin sign, to an ASCII letter first. A character outside the Basic Multilingual Plane becomes one `_` here and two in the source.
- Strings are sequences of Unicode scalar values, while JavaScript strings are UTF-16 code units. The difference shows only in skill normalisation: a character outside the Basic Multilingual Plane becomes one `_` here but two in the source. Keyword extraction strips every such character before it measures lengths, so it is unaffected.
- `split(/\s+/)` is modelled as splitting on every whitespace character. The extra empty fields this produces are all dropped by the length filter, so the keyword list is the same. The bare token list is not claimed equal.
- The `/i` flag of the trigger patterns is modelled as matching triggers against the lower-cased text. All triggers are lower-case ASCII, so this agrees.
- Missing or extra keys in a career's `personalityVector` and the `|| 0` read of a NaN are left out: the vector is a record with all five traits.
- Object keys that JavaScript enumerates specially (integer-like labels such as `"12"`) or that collide with `Object.prototype` (`"constructor"`) are left out. A counter is an insertion-ordered association list.
- The Next button is disabled until the current item is answered (`client/src/pages/Assessment.tsx:250`). This is not enforced: `Next` is total, and an unanswered item is simply skipped by the scoring, which is what the source would do if the guard were bypassed.
- Answers are integers. Non-numeric or NaN answers are not representable.
- The 50-entry limit of `getJournalEntries` belongs to the store and is not modelled.
- A null `createdAt` (read as the epoch by `new Date(null)`) is not modelled: every entry has an integer timestamp.
- The background `analyzeJournalEntry` and `generateCareerRecommendations` calls and their caught errors are not modelled. Concurrency is out of scope.
- `entries.sort` in `calculateStreak` sorts the caller's array in place. The model returns a sorted copy, and the side effect is not visible to the computed stats.
