# Practice Causality page — a Dafny model

The practice page of the causality course is a small quiz. It steps through four
scenarios about causal structure: a mediator, a confounder, a collider, and a mixed
fork-and-chain case. Each scenario has one short-answer question and two
multiple-choice questions. Every question has an answer box that the visitor
reveals on demand. This project models the page's behaviour and its content, and
proves properties of both:

- **Content** (`content.dfy`, `scenario_data.dfy`, `scenario_facts.dfy`). The
  `scenarios` array is transcribed as Dafny constants. Questions are a tagged
  variant: short answer, multiple choice, or a record whose `type` the renderer
  does not recognise. A validator states what the renderer and the answer records
  rely on, and is proved of the actual content.
- **Answer records** (`answers.dfy`, `answer_data.dfy`). The structured fields of
  `scenarioAnswers` are modelled and checked against the scenarios. These fields are
  the scenario id, the title, the diagram path, the two tagged regressions and the
  identified roles.
- **Rendering** (`render.dfy`). The question cards are a view description rather
  than HTML. Each card has a number, a prompt, radios or a short-answer box, and two
  view flags: answer shown, and button marked answered.
- **Controller** (`navigation.dfy`, `walkthrough.dfy`). The page is one immutable
  `Page` value that holds the cursor and everything the controller writes. The
  operations are `loadScenario`, `nextScenario`, `previousScenario`,
  `updateNavButtons`, `toggleAnswer` and the start-up handler. Each is a function
  from page to page. User events are folded over a page, and a consistency invariant
  holds after any sequence of events.
- **Utilities** (`ordinal.dfy`, `shuffle.dfy`, `js.dfy`). The JavaScript semantics
  that `ordinal` relies on are spelled out: truncating `%`, `undefined` for an index
  out of range, `||` on truthiness, and number-to-text concatenation for integers of magnitude at most
  2^53. `shuffle` is a
  Fisher–Yates loop. A sequence of draws in [0, 1) stands in for `Math.random()`.

The page never grades a chosen option against `correctAnswer` and has no
scenario-level answer-panel toggle. A radio change calls `toggleAnswer`, which
ignores the option index and flips the box. So choosing a second option hides the
answer again (`Navigation.SecondChoiceHidesAnswer`).

## Model

| member | source | states |
|---|---|---|
| `Navigation.LoadScenario` | js/practice-causality.js:27-51 | an index outside [0, count) leaves the page unchanged; otherwise the cursor becomes the index, the header holds counter index + 1 and that scenario's title, subtitle and story, the cards are that scenario's rendered questions with every answer hidden and every answered mark cleared, and the buttons follow the new cursor |
| `Navigation.NextScenario` | js/practice-causality.js:172-176 | a no-op on the last scenario; otherwise the cursor moves forward by exactly one and every answer of the new scenario is hidden |
| `Navigation.PreviousScenario` | js/practice-causality.js:178-182 | a no-op on the first scenario; otherwise the cursor moves back by exactly one and every answer of the new scenario is hidden |
| `Navigation.UpdateNavButtons` | js/practice-causality.js:184-200 | "previous" is disabled iff the cursor is 0, "next" is disabled iff the cursor is the last index and then reads "✓ Completed!", otherwise "Next Scenario →"; nothing but the buttons changes |
| `Navigation.Handle` | js/practice-causality.js:102-126 | a radio change acts exactly like a "Show Answer" click on the same question; next and previous either leave the page alone or move the cursor by one with every answer hidden; answer toggles leave cursor, header and buttons alone |
| `Navigation.Boot` | js/practice-causality.js:12-21 | start-up shows the scenario count and puts the cursor on 0 with counter 1 and hidden answers; "previous" is disabled, and "next" is disabled and reads "✓ Completed!" exactly when there is a single scenario |
| `Navigation.LoadConsistent` | js/practice-causality.js:184-200 | a load keeps the page invariant, so afterwards the buttons agree with the cursor: previous is disabled iff the cursor is 0, next is disabled iff it is the last index, and the label is "✓ Completed!" exactly on the last index, otherwise "Next Scenario →" |
| `Navigation.BootConsistent` | js/practice-causality.js:12-21 | the page after start-up satisfies the page invariant |
| `Navigation.NextConsistent` | js/practice-causality.js:172-176 | moving forward, including the no-op on the last scenario, keeps the page invariant |
| `Navigation.PreviousConsistent` | js/practice-causality.js:178-182 | moving back, including the no-op on the first scenario, keeps the page invariant |
| `Navigation.HandleConsistent` | js/practice-causality.js:172-182 | each user event (next, previous, show-answer click, radio change) keeps the page invariant |
| `Navigation.RunConsistent` | js/practice-causality.js:5-6 | after start-up and any sequence of events, the cursor stays in [0, count), and header, cards and buttons agree with the cursor |
| `Navigation.FindBox` | js/practice-causality.js:150 | `getElementById('answer-N')` returns the first card in page order whose answer box has that id, or nothing when no card has one |
| `Navigation.ToggleAnswer` | js/practice-causality.js:149-166 | only the addressed box flips its shown flag; cursor, header, buttons and all other cards are unchanged; revealing a short answer marks its button answered so it reads "Hide Answer", and hiding never clears the mark; with no such box the page is unchanged |
| `Navigation.ToggleIgnoresArguments` | js/practice-causality.js:149 | the result does not depend on `optionIndex` or `show` |
| `Navigation.ToggleTwice` | js/practice-causality.js:152-156 | toggling the same answer twice restores every box's visibility, and answered marks only grow |
| `Navigation.ToggleConsistent` | js/practice-causality.js:152-165 | toggling changes only view flags, so the page invariant is kept |
| `Navigation.BoxOfNumberedCards` | js/practice-causality.js:113 | when cards are numbered 1..n and all have boxes, `answer-q` is card q - 1 for q in 1..n and does not exist otherwise |
| `Navigation.ConsistentBox` | js/practice-causality.js:131 | in a consistent page, the box `answer-q` belongs to card q - 1 whenever that card has a box |
| `Navigation.SecondChoiceHidesAnswer` | js/practice-causality.js:102 | on a multiple-choice question with a hidden answer, one radio change reveals it and a second change, to any option, hides it again |
| `Render.RenderQuestions` | js/practice-causality.js:57-65 | exactly one card per question, in order, numbered 1..n, each built from its question, all answers hidden and no button marked |
| `Render.CardsFrom` | js/practice-causality.js:61-64 | the `forEach` builds card k from question k with number k + 1 |
| `Render.CreateCard` | js/practice-causality.js:67-88 | a multiple-choice question gets radios and its explanation; a short question gets its answer, with the hint iff the question has a non-empty hint; any other type gets an empty card without answer box |
| `Render.Radios` | js/practice-causality.js:90-107 | one radio per option, in order; radio k has value k, the option's text, group `q<n>` and id `q<n>-opt<k>` |
| `Render.BoxIdInjective` | js/practice-causality.js:113 | two questions share the answer-box id `answer-<n>` iff they have the same number |
| `Render.RadioIdsDistinct` | js/practice-causality.js:94 | the radios of one question have pairwise different ids |
| `Render.WellFormedCardsHaveBoxes` | js/practice-causality.js:78-82 | for well-formed content the renderer's dispatch is exhaustive: every card has an answer box |
| `Ordinal.Ordinal` | js/practice-causality.js:207-211 | `ordinal(n)` is n's decimal text followed by the English suffix |
| `Ordinal.SuffixAgreesWithEnglish` | js/practice-causality.js:208-210 | the table lookup with truncating `%` and the left-first or-fallbacks gives "st"/"nd"/"rd" for last digit 1/2/3, except 11–13 modulo 100, and "th" otherwise; every negative number gets "th" |
| `Ordinal.TableLookup` | js/practice-causality.js:208-210 | for any two keys, the fallback chain `s[a]`, then `s[b]`, then `s[0]` yields the entry at the first key that indexes the table, else the one at the second, else "th"; no entry is empty, so the fallback never skips a hit |
| `Ordinal.SuffixDependsOnLastTwoDigits` | js/practice-causality.js:209 | for n ≥ 0 the suffix depends only on n % 100 |
| `Ordinal.FirstOrdinals` | js/practice-causality.js:206 | 1st, 2nd, 3rd, 4th |
| `Ordinal.TeenOrdinals` | js/practice-causality.js:210 | 11th, 12th, 13th |
| `Ordinal.TwentiesOrdinals` | js/practice-causality.js:210 | 21st, 22nd, 23rd |
| `Js.Or` | js/practice-causality.js:210 | JavaScript's or-operator on two values is truthy iff one operand is, and returns one of its operands |
| `Js.RemTruncates` | js/practice-causality.js:209-210 | `a % b` is the remainder of a division truncated toward zero: `a == b * q + r` for some quotient q, r lies strictly between -b and b, and q and r are both non-negative for a ≥ 0 and both non-positive for a ≤ 0 |
| `Js.DecimalRoundTrip` | js/practice-causality.js:210 | the text of an integer starts with '-' iff it is negative, and the rest is digits that read back as its magnitude |
| `Js.DigitsRoundTrip` | js/practice-causality.js:34 | the decimal text of a number reads back as that number |
| `Js.DigitsWellFormed` | js/practice-causality.js:210 | decimal text is non-empty, all digits, with a leading zero only for 0 |
| `Js.DecimalInjective` | js/practice-causality.js:113 | different numbers have different decimal texts, so ids built from them never collide |
| `Shuffle.Shuffle` | js/practice-causality.js:214-221 | for any draws, the result has the input's length and the same multiset of elements; the input is a value and stays as it was |
| `Shuffle.Pick` | js/practice-causality.js:217 | `Math.floor(draw * (i + 1))` is an index in [0, i] |
| `Shuffle.Swap` | js/practice-causality.js:218 | the destructuring swap exchanges two positions, leaves the rest alone, and keeps the multiset |
| `Content.SeparatorAt` | js/practice-causality-data.js:14-17 | finds the first position where " → " starts, and no earlier one |
| `Content.ParseArrow` | js/practice-causality-data.js:14-17 | a parsed arrow is exactly its two endpoints joined by " → " |
| `Content.ParseFormatArrow` | js/practice-causality-data.js:85-88 | joining two endpoints (the first without '→') and parsing gives the endpoints back |
| `ScenarioFacts.ScenariosWellFormed` | js/practice-causality-data.js:5-305 | there are 4 scenarios with ids 1..4 in order; every question is short or multiple-choice with ids 1..3 (q1 short, q2 and q3 multiple-choice); every `correctAnswer` indexes its options; every short question has a non-empty hint and answer; every arrow joins declared variables; every advice has a correct and an incorrect entry |
| `ScenarioFacts.CoffeeShopChroniclesWellFormed` | js/practice-causality-data.js:6-75 | scenario 1 is well formed |
| `ScenarioFacts.ClimbingTheLadderWellFormed` | js/practice-causality-data.js:77-147 | scenario 2 is well formed |
| `ScenarioFacts.HollywoodDreamsWellFormed` | js/practice-causality-data.js:149-224 | scenario 3 is well formed |
| `ScenarioFacts.FromGenerationToGenerationWellFormed` | js/practice-causality-data.js:226-304 | scenario 4 is well formed |
| `ScenarioFacts.CoffeeShopChroniclesArrows` | js/practice-causality-data.js:11-17 | both arrows of scenario 1 join declared variables |
| `ScenarioFacts.ClimbingTheLadderArrows` | js/practice-causality-data.js:82-88 | both arrows of scenario 2 join declared variables |
| `ScenarioFacts.HollywoodDreamsArrows` | js/practice-causality-data.js:154-160 | both arrows of scenario 3 join declared variables |
| `ScenarioFacts.FromGenerationToGenerationArrows` | js/practice-causality-data.js:231-240 | all five arrows of scenario 4 join declared variables |
| `ScenarioFacts.CoffeeShopChroniclesRole` | js/practice-causality-data.js:54-58 | scenario 1 names exactly one role: Caffeine as mediator |
| `ScenarioFacts.ClimbingTheLadderRole` | js/practice-causality-data.js:126-130 | scenario 2 names exactly one role: SES as confounder |
| `ScenarioFacts.HollywoodDreamsRole` | js/practice-causality-data.js:198-202 | scenario 3 names exactly one role: Success as collider |
| `Walkthrough.StartPage` | js/practice-causality.js:14-20 | at start-up the page shows scenario 1 of 4, "Coffee Shop Chronicles", previous disabled, "Next Scenario →", and three cards with hidden answers |
| `Walkthrough.WalkOverFour` | js/practice-causality.js:172-182 | with four scenarios, next three times then previous once ends on index 2 with counter 3 and that scenario's title |
| `Walkthrough.NextNextNextPrevious` | js/practice-causality-data.js:151 | that walk on the page's content shows "Hollywood Dreams" |
| `Walkthrough.LastPage` | js/practice-causality.js:192-196 | on the last scenario "next" is disabled, reads "✓ Completed!", and clicking it changes nothing |
| `Answers.Property` | js/practice-causality-answers.js:22-47 | reading a property of an object literal finds nothing iff no entry has that key |
| `Answers.PropertyIsLast` | js/practice-causality-answers.js:77-103 | the property read returns the entry of the last occurrence of the key |
| `Answers.PropertyIgnoresOrder` | js/practice-causality-answers.js:194-220 | swapping neighbouring entries with different keys changes no property, so `correct`/`incorrect` may be written in either order |
| `Answers.DagImagePathInjective` | js/practice-causality-answers.js:9 | diagram paths `practice-causality/images/scenario<id>_dag.png` of different ids differ |
| `Answers.AlignedIds` | js/practice-causality-answers.js:7-8 | aligned records carry their scenario's id and have pairwise different diagram paths |
| `AnswerData.AnswersAligned` | js/practice-causality-answers.js:5-237 | 4 records, one per scenario; record i has scenarioId i + 1, scenario i's title and identified roles, the diagram path built from its id, and its `correct`/`incorrect` regressions tagged true/false |
| `AnswerData.CoffeeShopAnswersMatch` | js/practice-causality-answers.js:6-59 | record 1 matches scenario 1 |
| `AnswerData.ClimbingTheLadderAnswersMatch` | js/practice-causality-answers.js:61-115 | record 2 matches scenario 2, with `incorrect` written before `correct` |
| `AnswerData.HollywoodDreamsAnswersMatch` | js/practice-causality-answers.js:117-172 | record 3 matches scenario 3 |
| `AnswerData.FromGenerationToGenerationAnswersMatch` | js/practice-causality-answers.js:174-236 | record 4 matches scenario 4, with `incorrect` written before `correct` |

## Left out

- DOM plumbing is not modelled: `innerHTML`, `createElement`, `appendChild` and `textContent` writes. The page is a `Page` value; the region lookups by `getElementById` become fields of `Page`, and the answer-box lookup is `Navigation.FindBox`.
- `window.scrollTo(0, 0)` in `loadScenario` is left out: scrolling is not observable in the model.
- HTML markup is not modelled, including the unescaped interpolation of prompts, options and explanations. Cards keep the text fields and leave out the markup.
- `Navigation.ToggleAnswer` marks only the revealed card's own button as answered. The source finds buttons by checking whether the handler's source text contains the question number. With ten or more questions, revealing a question would also mark every short question whose number's decimal text contains the revealed number's decimal text: revealing 1 marks 10–19, 21, 31 and so on, and revealing 2 marks 12, 20–29, 32 and so on. The page never has more than three questions, and this reflection over handler text is not modelled.
- Which radio is checked is not modelled. A radio change is an event that fires when a radio becomes checked. `this.checked` is therefore `true`.
- `Shuffle.Shuffle`: `Math.random()` is replaced by draws supplied by the caller, so uniformity is not modelled. `Math.floor(draw * (i + 1))` is computed on reals, not IEEE doubles.
- `Ordinal.Ordinal` is modelled for integers only. A fractional or non-numeric argument is not modelled.
- `Ordinal.Ordinal` writes every integer in its exact plain digits, as `Js.Decimal` does, which agrees with JavaScript only up to 2^53 in magnitude. Above 2^53 not every integer is a JavaScript number, and JavaScript writes the shortest digits that round back to the same double, padded with zeros: `ordinal(2 ** 55)` is "36028797018963970th", while the model's `Ordinal(36028797018963968)` is "36028797018963968th". From 10^21 on JavaScript uses exponent form, so `ordinal(1e21)` is "1e+21th", while the model gives the 22-digit text. Doubles are not modelled; the page only numbers scenarios and questions, far below these bounds.
- Non-integer indices passed to `loadScenario` are not modelled, since the page only passes integers.
- Display text in the answer records is not modelled: `causalStructureDescription`, `result` and `keyTakeaway`. Their regression figures are prose, not values the page computes with.
- Nothing in the page reads `correctAnswer` or `scenarioAnswers` at run time. The model checks them only as content.
- A JavaScript exception from `toggleAnswer` with no matching answer box is modelled as "page unchanged". The handler throws before it writes anything.
