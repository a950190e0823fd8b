# Questionnaire submission model

A Dafny model of the submit workflow of the food frequency questionnaire
page (`QuestionnairePageComponent` of ffq-questionnaire-web). A caregiver
fills in a list of food items, a gender and the infant's age, and presses
submit. The page then:

- raises the `submitting` guard;
- checks the gender and the age;
- runs one pass over the food items, in place. Secondary items are disabled
  while "hide secondary items" is on. Every enabled item is marked submitted
  and its error state is tallied;
- on an error, shows the "Questionnaire Incomplete" dialog and drops the guard;
- otherwise sends one calculation request per enabled item, in array order,
  to the nutrient calculation;
- on a result, keeps each nutrient whose daily and weekly values are both
  present, then asks the backend to finalize the questionnaire;
- on success, navigates home, shows "Submitted Successfully" and drops the
  guard. A failure of either call navigates home, shows "Error Submitting
  Questionnaire" with the message and a fixed suffix, and drops the guard.

The model also covers the hide-secondary toggle and the in-place sort of
loaded items by `itemPosition`.

Files:

- `wrappers.dfy`: module `Wrappers`, the `Option` type (`None` is `undefined`/`null`).
- `food_items.dfy`: module `FoodItems`. It holds the item record, the per-item update
  of the pass (`AfterPass`), the enabled items and the request list as functions,
  the facts about them, and the comparator.
- `nutrients.dfy`: module `Nutrients`, the nutrient-map filter.
- `questionnaire_page.dfy`: module `QuestionnairePage`, the component as a class.
  Its fields are `submitting`, `hideSecondaryItems`, `gender`, `infantage`, the
  identifiers and an `array<FoodItem>`. It also holds the callbacks for the two
  backend answers and the sort.

Modelling choices:

- The page's JavaScript values are modelled explicitly:
  - `gender` is an `Option<string>`, and `!gender` is "unset, `null` or empty".
  - `infantage` is `Undefined | Null | Finite(real) | NotFinite`.
    `AgeFailsIntegerCheck` gives JavaScript's `infantage % 1 != 0`. `undefined`
    and non-finite values give NaN and are flagged. A fractional number is
    flagged. A whole number passes, and so does `null`, because `null % 1` is 0.
    The lemma `IntegerCheckCases` records these cases.
- The item's error state (`getErrorState().length`) is the parameter
  `errorCount`. `FFQItemCalcRequest.calcRequestFromFoodItem` is the parameter
  `toRequest`. Both are functions of the item, evaluated on the item as the
  pass leaves it, as the source does. `NutrientConstants.NUTRIENT_NAMES` is
  the input `nutrientNames`.
- The two HTTP subscriptions are the callback methods `OnCalculationResult`
  and `OnFinalizeResult`, with the backend's answer given as a value
  (`CalcResponse`, `FinalizeResponse`). `SubmitAndAwait` runs one whole
  attempt in the order the subscriptions fire.
- Dialogs, navigation and the two backend calls are recorded in order in the
  ghost field `effects`.
- The sort is an insertion sort by adjacent swaps, done in place on the same
  array, which is also returned. This matches `arr.sort`, which sorts in place
  and returns the array it sorted.

Two points in the code that a reader might not expect:

- The comment at line 88 of the component says the age check is meant to
  accept only integers. But `null % 1` is 0 in JavaScript, so a cleared
  (`null`) age passes the check (`IntegerCheckCases`).
- The component never reads `submitting` before it submits; the flag is only
  set and cleared. So `SubmitQuestionnaire` has no precondition on it.

## Model

| member | source | states |
|---|---|---|
| `QuestionnairePage.QuestionnairePageComponent.constructor` | src/app/pages/questionnaire-page/questionnaire-page.component.ts:42-52 | A fresh page has hiding off, the guard down, gender and age unset, and records the user, questionnaire and loaded items |
| `QuestionnairePage.QuestionnairePageComponent.ToggleHideSecondaryItems` | src/app/pages/questionnaire-page/questionnaire-page.component.ts:153-155 | `hideSecondaryItems` is negated; the frame allows no other change |
| `QuestionnairePage.QuestionnairePageComponent.SubmitQuestionnaire` | src/app/pages/questionnaire-page/questionnaire-page.component.ts:78-126 | The items become the pass applied to the old items. No request is sent exactly when the page has errors (`PageHasErrors`): gender missing (`GenderMissing`), age failing `% 1` (`AgeFailsIntegerCheck`), or an item enabled after the pass with a non-empty error state. In that case the guard is down and only the incomplete dialog was shown. Otherwise the guard is up, the calculation was called with as many requests as the returned list holds, and that list is the enabled items' requests in order |
| `QuestionnairePage.QuestionnairePageComponent.BuildRequestList` | src/app/pages/questionnaire-page/questionnaire-page.component.ts:117-123 | The list has exactly one request per non-disabled item, derived from it, in array order; its length is the number of non-disabled items |
| `QuestionnairePage.QuestionnairePageComponent.OnCalculationResult` | src/app/pages/questionnaire-page/questionnaire-page.component.ts:126-148 | A calculation error takes the submission-error path and drops the guard. A result yields daily and weekly maps with equal key sets: the listed nutrients with both values present, stored as given. Finalization is then called with the guard still up |
| `QuestionnairePage.QuestionnairePageComponent.OnFinalizeResult` | src/app/pages/questionnaire-page/questionnaire-page.component.ts:140-146 | Success navigates home and then shows the success dialog; an error takes the submission-error path; the guard is down either way |
| `QuestionnairePage.QuestionnairePageComponent.HandleSubmissionError` | src/app/pages/questionnaire-page/questionnaire-page.component.ts:196-203 | Navigates home, shows the submission-error dialog with the message plus the fixed suffix, and drops the guard |
| `QuestionnairePage.QuestionnairePageComponent.SubmitAndAwait` | src/app/pages/questionnaire-page/questionnaire-page.component.ts:78-151 | The guard is down after every outcome. The outcome is incomplete exactly when the page has errors. Otherwise it is calculation failure, finalize failure or success according to the backend's answers, and the failure message is the backend's. The request list is sent only for a complete page, and the effects are exactly those of the outcome |
| `QuestionnairePage.OneDialogPerAttempt` | src/app/pages/questionnaire-page/questionnaire-page.component.ts:107-148 | Every outcome shows exactly one dialog. It navigates home on every outcome except an incomplete page. It calls the calculation only for a complete page, and finalization only after a calculation result |
| `QuestionnairePage.QuestionnairePageComponent.GetFoodItemByPosition` | src/app/pages/questionnaire-page/questionnaire-page.component.ts:170-175 | Returns the same array, now non-decreasing in `itemPosition` and a permutation of its old contents; an already sorted array is left as it was |
| `QuestionnairePage.InsertByPosition` | src/app/pages/questionnaire-page/questionnaire-page.component.ts:171-173 | One insertion step of the sort: extends the sorted prefix by one item, permutes only, leaves the items after it in place, and changes nothing when that prefix was already sorted |
| `QuestionnairePage.IntegerCheckCases` | src/app/pages/questionnaire-page/questionnaire-page.component.ts:88-92 | `AgeFailsIntegerCheck`, the model of `% 1 != 0`, flags undefined, NaN/infinite and fractional ages; whole ages (0 and negatives too) and `null` pass |
| `QuestionnairePage.WholeAgesPass` | src/app/pages/questionnaire-page/questionnaire-page.component.ts:89 | Every whole number passes the age check |
| `QuestionnairePage.MissingGenderIsIncomplete` | src/app/pages/questionnaire-page/questionnaire-page.component.ts:83-86 | `GenderMissing`, the model of `!this.gender`, holds for an unset or empty gender, and then `PageHasErrors` holds whatever the age and items |
| `QuestionnairePage.CompletePageHasNoErrors` | src/app/pages/questionnaire-page/questionnaire-page.component.ts:81-105 | `PageHasErrors` is false for a non-empty gender, a whole age and no errors on enabled items; disabled items' errors are ignored |
| `FoodItems.AfterPass` | src/app/pages/questionnaire-page/questionnaire-page.component.ts:95-100 | While hiding, a secondary item ends disabled. `disabled` is never cleared, and it is unchanged for primary items and when hiding is off. An item left enabled ends submitted. A disabled item's `isSubmitted` is untouched. No other field changes |
| `FoodItems.EnabledIndicesExact` | src/app/pages/questionnaire-page/questionnaire-page.component.ts:117-123 | The enabled indices are strictly increasing, and an index is listed exactly when its item is not disabled |
| `FoodItems.RequestsFollowIndices` | src/app/pages/questionnaire-page/questionnaire-page.component.ts:117-123 | The j-th request is built from the j-th enabled item; there are as many requests as enabled indices |
| `FoodItems.EnabledCount` | src/app/pages/questionnaire-page/questionnaire-page.component.ts:117-123 | The number of listed enabled indices is the number of non-disabled items |
| `FoodItems.HiddenSecondaryNotRequested` | src/app/pages/questionnaire-page/questionnaire-page.component.ts:95-123 | With hiding on, every item still enabled after the pass is primary, so secondary items reach neither the error tally nor the request list |
| `FoodItems.ComparePositions` | src/app/pages/questionnaire-page/questionnaire-page.component.ts:171-173 | The comparator answers -1, 0 or 1, negative exactly for a smaller position and positive exactly for a larger one |
| `FoodItems.ComparePositionsAntisymmetric` | src/app/pages/questionnaire-page/questionnaire-page.component.ts:172 | Swapping the comparator's arguments negates its answer |
| `Nutrients.BuildNutrientMaps` | src/app/pages/questionnaire-page/questionnaire-page.component.ts:128-138 | Both maps have the same keys: the listed names whose daily and weekly values are both neither undefined nor null. The stored values are the raw ones, and a name missing either value is in neither map |
| `Nutrients.PartialNutrientDropped` | src/app/pages/questionnaire-page/questionnaire-page.component.ts:133-137 | With a null daily zinc value, only iron is kept |

## Left out

- `loadFoodItems`, `ngOnInit` and `fooditem.component.ts`: route parameters, the authentication service and HTTP fetching. The page is constructed with its identifiers and loaded item array. `getFoodItemByPosition`, the one piece of logic in loading, is modelled.
- `FFQItem.getErrorState`, `FFQItemCalcRequest.calcRequestFromFoodItem`, `FFQItem.foodItemFromResponse` and the contents of `NutrientConstants.NUTRIENT_NAMES`: their source files are not part of this model. The first two are parameters and the last is an input.
- Asynchrony of the RxJS subscriptions, and HTTP transport. Each backend answer is a value handed to a callback method, in the order the subscriptions fire.
- Dialog components, `componentInstance` field injection and routing. These are recorded only as `OpenDialog(title, message)` and `NavigateHome` effects.
- `handleFoodServiceError` and `handleQuestionnaireError`. The first is part of loading; the second is never called.
- The `$localize` texts, `log` and `console` output, and the unused uses of the nutrient maps after they are built.
- Item objects: items are datatype values in the array's slots, so object identity and aliasing between items are not modelled. The `foodItems`/`tmpfoodItems` sharing of one array is not modelled either.
- The item's error state is a parameter, so a `getErrorState` that throws is not modelled. Neither is a calculation result whose `dailyAverages` or `weeklyTotals` is itself missing: the lookup would throw there.
- Nutrient values are integers; the source's floating-point numbers are only copied, never computed with.
- GetFoodItemByPosition: says nothing about the order of items with equal positions, beyond leaving an already sorted array unchanged. The comparator does not decide ties.
