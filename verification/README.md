# TrueAlign scoring and assessment core in Dafny

TrueAlign is a dating app that matches people on personality and values.
This project models the three parts of it that compute something, and
proves properties of them:

- **Trait scoring** (`PersonalityService`, file `personality_service.dfy`).
  The saved answers to the personality questionnaire are turned into a map
  from trait tag to a score, which lies between 10 and 100 when every
  importance is within the slider's range 1–10. The answer options are
  first indexed by id, giving the trait tag of each option. For each tag,
  the importances of its answers are summed and counted. Each score is
  `10 * sum / count` rounded half up on the exact ratio (the source's
  floating-point version can land one point lower at an exact half; see
  "Left out").
- **Compatibility** (`PersonalityService`). Two trait maps are compared
  over the union of their tags. Each tag has a weight (the mean of the two
  scores) and a similarity (100 minus the score difference). The result
  is the weighted similarity divided by the weighted maximum, which is
  0.5 when no data or no weight is available.
- **Value pattern** (`ValueService`, file `value_service.dfy`). The
  scenario answers vote for one of three fixed patterns (empathetic,
  ambitious, balanced). The pattern with the most votes is named, and ties
  go to the pattern declared first.
- **Assessment navigation** (`PersonalityAssessment`, file
  `personality_assessment.dfy`). The page's state is a class with four
  fields: the active category, the index of the current question, the
  answered ids and a completion flag. The class has methods for the
  page's handlers: record an answer and move on, pick a category, and
  search for the next category with unanswered questions. The values the
  page derives on each render are functions: the shown and unanswered
  questions, the progress percentage, and the "category completed" mark.
  React applies state updates only at the next render, so the handlers'
  reads see the state of the render they were created in. The contracts
  express this with `old(...)`, and the search method takes the answered
  ids it reads as a parameter. The one functional update, which appends
  the answered id, is taken to see that same state (see "Left out").

`Math.round` is modelled by `JsMath.RoundDiv`, which rounds half up on
the exact rational quotient; the source rounds a floating-point quotient
instead, which can differ at an exact half (see "Left out").
Compatibility is computed in exact reals.
`Wrappers.Option` stands for a JavaScript value that may be `null` or
`undefined`.

## Model

| member | source | states |
|---|---|---|
| JsMath.RoundDiv | src/services/personalityService.ts:185 | `Math.round(n / d)` for d > 0: the result r satisfies r - 1/2 <= n/d < r + 1/2 (half up) |
| JsMath.RoundDivUnique | src/services/personalityService.ts:185 | exactly one integer lies in that rounding window |
| PersonalityService.OptionTraitsLastWins | src/services/personalityService.ts:163-166 | an option id is in the lookup iff some fetched row has it, and it maps to the tag of the last such row |
| PersonalityService.BuildOptionTraits | src/services/personalityService.ts:163-166 | the loop over the option rows builds exactly that lookup |
| PersonalityService.AggregateTraits | src/services/personalityService.ts:169-180 | the per-trait totals: a tag is a key iff at least one response resolves to it, and its value is the sum of importances and the number of those responses |
| PersonalityService.Score | src/services/personalityService.ts:185 | the normalised score is the integer nearest 10 * score / count, rounding halves up |
| PersonalityService.NormalizeTraits | src/services/personalityService.ts:183-186 | keeps exactly the keys of the totals map and stores each key's score |
| PersonalityService.CalculatePersonalityTraits | src/services/personalityService.ts:151-188 | the result is the trait map the response set determines under the option lookup, and it is empty for no responses |
| PersonalityService.TallyCountPositive | src/services/personalityService.ts:171-180 | a tag has a positive count iff some response's option resolves to that non-empty tag |
| PersonalityService.TallyResolved | src/services/personalityService.ts:172-173 | only non-empty tags present in the lookup ever get counted |
| PersonalityService.TraitScoresKeys | src/services/personalityService.ts:171-186 | the output keys are exactly the tags resolved from at least one response |
| PersonalityService.EmptyResponsesGiveEmptyMap | src/services/personalityService.ts:151 | no responses give the empty map |
| PersonalityService.TallyAppend | src/services/personalityService.ts:171-180 | the totals of two concatenated response lists are the sums of their totals |
| PersonalityService.TallyPermutation | src/services/personalityService.ts:171-180 | the totals depend only on the multiset of responses |
| PersonalityService.TraitScoresOrderIndependent | src/services/personalityService.ts:171-186 | reordering the responses gives the same trait map |
| PersonalityService.UnresolvedResponseIgnored | src/services/personalityService.ts:172-173 | inserting a response whose option is unknown or has an empty tag, anywhere, leaves the trait map unchanged |
| PersonalityService.InsertedTally | src/services/personalityService.ts:171-180 | inserting a response anywhere adds exactly its own contribution to every tag's totals |
| PersonalityService.TraitScoreIsRoundedMean | src/services/personalityService.ts:185 | every score is round-half-up of 10 * sum / count for its tag |
| PersonalityService.TallyBounds | src/services/personalityService.ts:177-178 | with importances in [1, 10], count <= sum <= 10 * count |
| PersonalityService.ScoreRange | src/services/personalityService.ts:185 | a mean importance in [1, 10] normalises to a score in [10, 100] |
| PersonalityService.TraitScoresInRange | src/components/PersonalityQuestionCard.tsx:138-142 | with every importance within the slider's range [1, 10], every trait score lies in [10, 100] |
| PersonalityService.SingleResponseScore | src/services/personalityService.ts:185 | one resolved answer gives the single-entry map tag -> 10 * importance (10 gives 100, 1 gives 10) |
| PersonalityService.TwoResponsesScore | src/services/personalityService.ts:185 | two answers on one tag give 5 * (i1 + i2), e.g. {10, 2} gives 60 |
| PersonalityService.ExactMeanScore | src/services/personalityService.ts:185 | when 10 * sum / count is whole, the score is exactly that |
| PersonalityService.OnlyTag | src/services/personalityService.ts:183-186 | when one tag alone is resolved, the trait map is the singleton of its score |
| PersonalityService.CalculateCompatibility | src/services/personalityService.ts:214-252 | 0.5 when either map is empty; otherwise the loop over the union of tags yields the weighted similarity over the weighted maximum, or 0.5 when the maximum is 0 |
| PersonalityService.SumOverRemove | src/services/personalityService.ts:235-248 | the sums over the tag set do not depend on the order the tags are visited in |
| PersonalityService.SumOverAdd | src/services/personalityService.ts:235-248 | visiting one more tag adds that tag's term |
| PersonalityService.SumOverSameTerms | src/services/personalityService.ts:235-248 | two sums with the same terms tag by tag are equal |
| PersonalityService.CompatibilitySymmetric | src/services/personalityService.ts:225-248 | compatibility(a, b) == compatibility(b, a) |
| PersonalityService.SumOverBounds | src/services/personalityService.ts:236-248 | with scores in [0, 100], 0 <= weighted similarity <= weighted maximum |
| PersonalityService.TermBounds | src/services/personalityService.ts:240-247 | with scores in [0, 100], each tag's term is between 0 and that tag's maximum term |
| PersonalityService.CompatibilityInRange | src/services/personalityService.ts:236-251 | with all scores in [0, 100] the result lies in [0, 1] |
| PersonalityService.AllZeroScoresNeutral | src/services/personalityService.ts:251 | when every score is 0 no weight is possible and the result is 0.5 |
| PersonalityService.IdenticalMapsFullyCompatible | src/services/personalityService.ts:243-251 | a non-empty map compared with itself gives 1 once some weight is possible |
| PersonalityService.PositiveScoreGivesWeight | src/services/personalityService.ts:240-247 | one positive score among non-negative ones makes the maximum positive |
| PersonalityService.IdenticalScoresFullyCompatible | src/services/personalityService.ts:243-251 | identical maps with scores in [0, 100], one of them positive, give 1.0 |
| PersonalityService.OppositeScoresIncompatible | src/services/personalityService.ts:243-251 | {X: 100} against {X: 0} gives 0.0 |
| PersonalityService.MissingTraitCountsAsZero | src/services/personalityService.ts:236-237 | a tag missing from one map is scored as if present with 0 |
| PersonalityService.ValueOf | src/services/personalityService.ts:236-237 | `traits[tag] || 0`: a tag absent from the map reads as 0, and a map with scores in [0, 100] yields a value in [0, 100] |
| PersonalityService.Similarity | src/services/personalityService.ts:243 | `100 - |u - v|` is at most 100, equals 100 exactly when the two scores agree, and is non-negative for scores in [0, 100] |
| PersonalityService.Term | src/services/personalityService.ts:240-247 | a tag that is 0 (or absent) on both sides adds nothing to either sum; a tag with equal scores u on both sides adds its full 100 * u to the weighted similarity |
| PersonalityService.ZeroTraitContributesNothing | src/services/personalityService.ts:240-247 | adding a tag that is 0 on both sides leaves compatibility unchanged |
| ValueService.FirstMax | src/services/valueService.ts:69-73 | the index that a stable descending sort puts first: its count is the maximum, and every earlier row's count is strictly smaller |
| ValueService.DetermineValuePattern | src/services/valueService.ts:54-78 | the result is always one of Empathetic, Ambitious, Balanced or Undefined |
| ValueService.CapitalizedNames | src/services/valueService.ts:56-60 | the three table keys with their first letter upper-cased are Empathetic, Ambitious and Balanced |
| ValueService.StableSortPutsFirstMaxFirst | src/services/valueService.ts:69 | any ordering that sorts the counts descending and keeps equal counts in table order starts with FirstMax |
| ValueService.MatchCountPositive | src/services/valueService.ts:64 | a pattern's count is positive iff some selection's option id is in its evidence list |
| ValueService.MatchCountCountsPositions | src/services/valueService.ts:64 | the count is the number of matching positions, so duplicates count once each |
| ValueService.MatchCount | src/services/valueService.ts:64 | the `filter(...).length` count never exceeds the number of selections |
| ValueService.Counts | src/services/valueService.ts:63-66 | one entry per table row, in table order, named after the row, with a count no larger than the number of selections |
| ValueService.Capitalize | src/services/valueService.ts:74 | same length and same tail as the input; the first character changes exactly when it is a lower-case ASCII letter, and then becomes upper-case |
| ValueService.UndefinedIffNoEvidence | src/services/valueService.ts:72-77 | the result is Undefined iff no selection's option id is in any evidence list |
| ValueService.WinnerIsFirstMaximum | src/services/valueService.ts:63-74 | the named pattern has a positive count, no pattern has more, and every earlier pattern has less |
| ValueService.FirstMaximumIsWinner | src/services/valueService.ts:63-74 | conversely the earliest pattern with the highest positive count is the one named |
| ValueService.ScenarioIdsIgnored | src/services/valueService.ts:64 | selections with the same option ids give the same result whatever their scenario ids |
| ValueService.SameOptionsSameCount | src/services/valueService.ts:64 | the count reads only option ids |
| ValueService.AllFirstOptionsAreAmbitious | src/services/valueService.ts:56-74 | selections 1a, 2a, 3a give Ambitious |
| ValueService.TieGoesToEarlierPattern | src/services/valueService.ts:56-69 | [1b, 2a] gives Empathetic, declared before Ambitious; [1c, 2a] gives Ambitious, declared before Balanced |
| PersonalityAssessment.InCategory | src/pages/PersonalityAssessment.tsx:91 | keeps exactly the questions of the category, and keeps ids distinct |
| PersonalityAssessment.Incomplete | src/pages/PersonalityAssessment.tsx:96-98 | keeps exactly the questions whose id is not answered, and keeps ids distinct |
| PersonalityAssessment.InCategoryAppend | src/pages/PersonalityAssessment.tsx:91 | the category filter keeps the questions' order: filtering a concatenation is the concatenation of the filtered parts |
| PersonalityAssessment.IncompleteAppend | src/pages/PersonalityAssessment.tsx:96-98 | the unanswered filter keeps the questions' order in the same sense, so an index into it follows the question order the page shows |
| PersonalityAssessment.FilteredQuestions | src/pages/PersonalityAssessment.tsx:89-93 | nothing before the questions load; all questions with no active category (null or ""); otherwise only the active category's |
| PersonalityAssessment.IncompleteQuestions | src/pages/PersonalityAssessment.tsx:89-98 | a question is listed iff it is loaded, not answered, and in the active category when one is set |
| PersonalityAssessment.ProgressPercentage | src/pages/PersonalityAssessment.tsx:101-103 | 0 with no questions; otherwise 100 * answered / total rounded half up |
| PersonalityAssessment.ProgressInRange | src/pages/PersonalityAssessment.tsx:101-103 | progress lies in [0, 100] while the answered ids are distinct question ids |
| PersonalityAssessment.CompletedAtMostAll | src/pages/PersonalityAssessment.tsx:101-103 | distinct answered question ids are at most as many as the questions |
| PersonalityAssessment.Answered | src/pages/PersonalityAssessment.tsx:248 | the answered count equals the question count iff every question is answered |
| PersonalityAssessment.CategoryCompleted | src/pages/PersonalityAssessment.tsx:247-249 | a category is marked completed iff it has at least one question and all of them are answered |
| PersonalityAssessment.FirstWithIncomplete | src/pages/PersonalityAssessment.tsx:142-166 | the scan from an index finds the first category there or later with an unanswered question, or reports that there is none |
| PersonalityAssessment.IndexOfCategory | src/pages/PersonalityAssessment.tsx:140 | `findIndex`: the first index with that id, or -1 iff there is none |
| PersonalityAssessment.SearchStart | src/pages/PersonalityAssessment.tsx:139-142 | with an active category the scan starts just after its first listing, or at 0 when it is not listed (-1 + 1); with none it starts past the end, so only the scan from the beginning runs |
| PersonalityAssessment.HasIncompleteIffFilteredNonEmpty | src/pages/PersonalityAssessment.tsx:144-146 | the `some` test `HasIncomplete` holds of a category exactly when filtering the unanswered questions down to that category leaves something |
| PersonalityAssessment.AllCompletedIffNoneIncomplete | src/pages/PersonalityAssessment.tsx:132 | the `every` test `AllCompleted` holds exactly when the unanswered-question filter is empty |
| PersonalityAssessment.ApplyMove | src/pages/PersonalityAssessment.tsx:133-170 | the search's effect on the page state: it never touches the answered ids, only ever sets the completion flag (and sets it exactly on Finish), and changes the category only by entering one at index 0 |
| PersonalityAssessment.NextMove | src/pages/PersonalityAssessment.tsx:129-171 | does nothing until questions and categories have loaded; a category it enters has an unanswered question |
| PersonalityAssessment.NextMoveSearchOrder | src/pages/PersonalityAssessment.tsx:132-170 | finish when all are answered; otherwise the first category after the active one with an unanswered question, else the first such from the start, else finish |
| PersonalityAssessment.NextMoveFinishMeansAllAnswered | src/pages/PersonalityAssessment.tsx:132-170 | when every question's category is listed, the search finishes iff every question is answered |
| PersonalityAssessment.AddCompleted | src/pages/PersonalityAssessment.tsx:107-109 | adds the id to the answered set, appending only if absent, so the list stays duplicate-free |
| PersonalityAssessment.AdvanceIndex | src/pages/PersonalityAssessment.tsx:113-118 | the index moves to its cyclic successor within the incomplete list |
| PersonalityAssessment.QuestionComplete | src/pages/PersonalityAssessment.tsx:106-126 | records the answer; with more than one incomplete question the index moves cyclically by one; a newly entered category has an unanswered question and starts at index 0; the flag is only ever set |
| PersonalityAssessment.QuestionCompleteFinishMeansAllAnswered | src/pages/PersonalityAssessment.tsx:119-121 | under the page's invariants the answered-count shortcut and the search only set the flag once every question is answered |
| PersonalityAssessment.AnsweredLeavesList | src/pages/PersonalityAssessment.tsx:96-98 | after the question at position i is answered, the incomplete list is the old one without position i |
| PersonalityAssessment.AsWrittenIndexSkipsQuestion | src/pages/PersonalityAssessment.tsx:111-118 | as written, the question after the answered one is passed over, and from the last-but-one position the index falls off the end although questions remain |
| PersonalityAssessment.CorrectedNextIndex | src/pages/PersonalityAssessment.tsx:113-118 | the corrected step stays within the shortened list |
| PersonalityAssessment.CorrectedIndexShowsNextQuestion | src/pages/PersonalityAssessment.tsx:111-118 | with the corrected step the page shows the question after the answered one, or the first one after wrapping |
| PersonalityAssessment.QuestionCompleteCorrected | src/pages/PersonalityAssessment.tsx:106-126 | the handler with the corrected step: the index stays within the shortened list, and all other effects are as written |
| PersonalityAssessment.AssessmentState.constructor | src/pages/PersonalityAssessment.tsx:32-36 | initial state: no category, index 0, nothing answered, not complete |
| PersonalityAssessment.AssessmentState.HandleCategorySelect | src/pages/PersonalityAssessment.tsx:174-177 | sets the category and resets the index to 0 |
| PersonalityAssessment.AssessmentState.FindNextCategoryWithIncompleteQuestions | src/pages/PersonalityAssessment.tsx:129-171 | the two loops with early returns produce exactly the move NextMove specifies, reading the given answered ids and the active category on entry |
| PersonalityAssessment.AssessmentState.HandleQuestionComplete | src/pages/PersonalityAssessment.tsx:106-126 | the new state is QuestionComplete of the state on entry |
| PersonalityAssessment.AssessmentState.HandleQuestionCompleteCorrected | src/pages/PersonalityAssessment.tsx:106-126 | the new state is QuestionCompleteCorrected of the state on entry |

## Left out

- Every Supabase call is left out: fetching questions, categories, responses, options and selections, the upserts, and the profile updates. The fetched rows are parameters instead, and `None` stands for data that has not loaded yet.
- The try/catch and rethrow around the trait calculation are left out, because the failures come from those calls.
- The loading effect is left out. It copies saved responses into the answered list (src/pages/PersonalityAssessment.tsx:75-86). The navigation lemmas instead assume what that effect would give: answered ids that are distinct question ids.
- Rendering, toasts, navigation, `useQuery`/`useMutation` plumbing, `handleComplete` and the animation delays are left out. They are UI or scheduling.
- The `userResponses` record is left out: only the rendering reads it.
- The match list on the Discover page is left out. Its scores come from a random number generator, not from the compatibility function.
- The routing guard and its `min(5, ceil(count * 0.5))` threshold are left out.
- Floating point is left out. Scores and progress use exact integer rounding, and compatibility is computed in exact reals. In JavaScript the division and the multiplication by 100 each round to a double, so a quotient that is exactly half-way between two integers can come out just below the half, and `Math.round` then returns the integer below the model's half-up result. For a score, importances 5, 6, 6 and 6 on one tag give 23 / 40, stored as the double just below 0.575; times 100 that is 57.49999999999999, so the source returns 57 where `Score` and `TraitScoreIsRoundedMean` give 58 (sum 46 over 8 answers behaves the same). Progress with 23 of 40 questions answered is likewise 57 in the source and 58 in `ProgressPercentage`. Compatibility sums in JavaScript also round at each step and depend on the order of keys, so a compatibility result can differ from the exact one in its last bits.
- `Capitalize` upper-cases ASCII letters only. The pattern names are ASCII, so this covers every name the table holds.
- Values that are present but not numbers are left out: a trait map value that is `NaN`, or an importance that is not a number, both of which `|| 0` and `+=` would handle in JavaScript. Trait maps are maps from strings to integers. A `null` map is modelled as the empty map.
- AggregateTraits: a trait tag that names an `Object.prototype` member (`"constructor"`, `"toString"`, ...) is treated as an ordinary tag. The source keeps its totals in a plain object, where `traits[tag]` is then already truthy, so no own entry is created, the sum is written as `NaN` onto the inherited member, and `Object.entries` never yields the tag: the source drops such a trait, the model scores it. The model has no prototype chain.
- TraitScores: for the same reason, a prototype-named tag appears in the model's trait map but is missing from the source's.
- ValueOf: a prototype-named tag absent from a trait map reads as 0 in the model, while the source's `userTraits[tag] || 0` yields the inherited function, which makes both compatibility sums `NaN` and the result 0.5.
- HandleQuestionComplete: the source appends the answered id through the updater `prev => [...prev, questionId]` (src/pages/PersonalityAssessment.tsx:108), which reads the latest queued state, while the duplicate guard at line 107 reads the render snapshot. The model assumes the handler runs against the latest committed state, so `prev` equals the snapshot. A re-render between the card's delayed `onComplete` call and the update (for example a refetch of the saved responses reaching the effect at lines 75-86) could append the id twice; the model does not capture that interleaving. The same holds for HandleQuestionCompleteCorrected.
- PersonalityService.Compatibility is a ghost specification, because it sums over an unordered set of tags. The method that computes it loops over the same set.
- PersonalityService.CalculateCompatibility: the source checks whether the union of tags is empty (src/services/personalityService.ts:230). That check is unreachable after the emptiness test at lines 218-220, so it is not modelled.

## Findings

| source | as written | input that shows it | evidently intended | confidence | as-written member | corrected member |
|---|---|---|---|---|---|---|
| src/pages/PersonalityAssessment.tsx:113-115 | after an answer the index becomes `currentQuestionIndex + 1`, but on the next render the answered question has left the incomplete list, so every later question has already moved down one place | one category with questions a, b, c, d, none answered: answering a moves the index to 1, so c is shown and b is passed over; answering c moves the index to 2, but the list is now [b, d], so the page shows "No more questions in this category" although b and d remain | keep the index where it is, since the next question has moved into that place, and go back to 0 only once the answered question was the last | not executed | PersonalityAssessment.AsWrittenIndexSkipsQuestion | PersonalityAssessment.CorrectedIndexShowsNextQuestion |
