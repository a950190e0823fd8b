/**
 * The questionnaire page (QuestionnairePageComponent): the submit pass over
 * the food items, the request list, the handling of the two backend answers,
 * the hide-secondary toggle and the ordering of loaded items.
 */
module QuestionnairePage {

  import opened Wrappers
  import opened FoodItems
  import opened Nutrients

  /**
   * The `infantage` field as JavaScript holds it: never set, cleared
   * (`null`), a finite number, or NaN or an infinity.
   */
  datatype InfantAge = Undefined | Null | Finite(value: real) | NotFinite

  /**
   * JavaScript's `infantage % 1 != 0`: `undefined % 1` and the remainder of
   * a non-finite number are NaN, which differs from 0; `null` is coerced to
   * 0; a finite number leaves a remainder exactly when it has a fraction.
   */
  predicate AgeFailsIntegerCheck(age: InfantAge)
  {
    match age
    case Undefined => true
    case Null => false
    case Finite(x) => x != x.Floor as real
    case NotFinite => true
  }

  /** JavaScript's `!gender` for a string field: unset, `null` or empty. */
  predicate GenderMissing(gender: Option<string>)
  {
    gender.None? || gender.value == ""
  }

  /**
   * The page has errors when the gender is missing, the age fails the
   * integer check, or an item left enabled by the pass reports errors.
   */
  predicate PageHasErrors(gender: Option<string>, age: InfantAge, items: seq<FoodItem>, errorCount: FoodItem -> nat)
  {
    || GenderMissing(gender)
    || AgeFailsIntegerCheck(age)
    || exists k :: 0 <= k < |items| && !items[k].disabled && errorCount(items[k]) > 0
  }

  /**
   * The integer check flags a missing age, a fractional age and NaN, and lets
   * whole numbers through, negative ones and 0 included; a cleared (`null`)
   * age also gets through, because JavaScript coerces it to 0.
   */
  lemma IntegerCheckCases()
    ensures AgeFailsIntegerCheck(Undefined) && AgeFailsIntegerCheck(NotFinite)
    ensures AgeFailsIntegerCheck(Finite(6.5)) && !AgeFailsIntegerCheck(Finite(6.0))
    ensures !AgeFailsIntegerCheck(Finite(-3.0)) && !AgeFailsIntegerCheck(Finite(0.0))
    ensures !AgeFailsIntegerCheck(Null)
  {
  }

  /** Every whole age passes the integer check. */
  lemma WholeAgesPass(n: int)
    ensures !AgeFailsIntegerCheck(Finite(n as real))
  {
  }

  /** An unset gender makes the page incomplete whatever the age and the items. */
  lemma MissingGenderIsIncomplete(age: InfantAge, items: seq<FoodItem>, errorCount: FoodItem -> nat)
    ensures PageHasErrors(None, age, items, errorCount)
    ensures PageHasErrors(Some(""), age, items, errorCount)
  {
  }

  /**
   * With a gender, a whole age and no errors on any enabled item, the page
   * is complete: disabled items' errors do not count.
   */
  lemma CompletePageHasNoErrors(gender: string, n: int, items: seq<FoodItem>, errorCount: FoodItem -> nat)
    requires gender != ""
    requires forall k :: 0 <= k < |items| && !items[k].disabled ==> errorCount(items[k]) == 0
    ensures !PageHasErrors(Some(gender), Finite(n as real), items, errorCount)
  {
    WholeAgesPass(n);
  }

  /** The answer of the nutrient calculation call. */
  datatype CalcResponse =
    | CalcError(message: string)
    | CalcResult(dailyAverages: RawValues, weeklyTotals: RawValues)

  /** The answer of the questionnaire finalization call. */
  datatype FinalizeResponse = FinalizeError(message: string) | Finalized

  /** What the page does to the world: dialogs, navigation and backend calls. */
  datatype Effect =
    | OpenDialog(title: string, message: string)
    | NavigateHome
    | CalculateNutrients(userId: string, questionnaireId: string, userType: string, infantage: InfantAge,
                         gender: Option<string>, itemCount: nat)
    | FinalizeQuestionnaire(questionnaireId: string)

  /** How one submit attempt ends. */
  datatype SubmitOutcome = Incomplete | CalculationFailed(message: string) | FinalizeFailed(message: string) | Submitted

  const INCOMPLETE_TITLE := "Questionnaire Incomplete"
  const INCOMPLETE_MESSAGE := "Please ensure all required fields are completed."
  const SUCCESS_TITLE := "Submitted Successfully"
  const SUCCESS_MESSAGE := "The questionnaire has been sent to the issuer."
  const SUBMISSION_ERROR_TITLE := "Error Submitting Questionnaire"
  const SUBMISSION_ERROR_SUFFIX := ". Try again or contact administrator."

  /** The effects of `handleSubmissionError`: go home, then show the error with the fixed suffix. */
  function SubmissionErrorEffects(message: string): seq<Effect>
  {
    [NavigateHome, OpenDialog(SUBMISSION_ERROR_TITLE, message + SUBMISSION_ERROR_SUFFIX)]
  }

  /** The effects of a whole submit attempt, by outcome. */
  function AttemptEffects(calculate: Effect, finalize: Effect, outcome: SubmitOutcome): seq<Effect>
  {
    match outcome
    case Incomplete => [OpenDialog(INCOMPLETE_TITLE, INCOMPLETE_MESSAGE)]
    case CalculationFailed(m) => [calculate] + SubmissionErrorEffects(m)
    case FinalizeFailed(m) => [calculate, finalize] + SubmissionErrorEffects(m)
    case Submitted => [calculate, finalize, NavigateHome, OpenDialog(SUCCESS_TITLE, SUCCESS_MESSAGE)]
  }

  /** The dialogs among a sequence of effects. */
  function Dialogs(es: seq<Effect>): seq<Effect>
  {
    if es == [] then []
    else (if es[0].OpenDialog? then [es[0]] else []) + Dialogs(es[1..])
  }

  /**
   * Each attempt shows exactly one dialog, navigates home on every outcome
   * except an incomplete page, and calls the backend only for a complete page.
   */
  lemma {:induction false} OneDialogPerAttempt(userId: string, id: string, userType: string, age: InfantAge,
                                               gender: Option<string>, itemCount: nat, outcome: SubmitOutcome)
    ensures var es := AttemptEffects(CalculateNutrients(userId, id, userType, age, gender, itemCount),
                                     FinalizeQuestionnaire(id), outcome);
      && |Dialogs(es)| == 1
      && (NavigateHome in es <==> !outcome.Incomplete?)
      && (CalculateNutrients(userId, id, userType, age, gender, itemCount) in es <==> !outcome.Incomplete?)
      && (FinalizeQuestionnaire(id) in es <==> outcome.FinalizeFailed? || outcome.Submitted?)
  {
    var calculate := CalculateNutrients(userId, id, userType, age, gender, itemCount);
    var fin := FinalizeQuestionnaire(id);
    var es := AttemptEffects(calculate, fin, outcome);
    var n := |es|;
    assert Dialogs(es[n - 1..]) == [es[n - 1]];
    if n >= 2 { assert Dialogs(es[n - 2..]) == Dialogs(es[n - 1..]) by { assert es[n - 2..][1..] == es[n - 1..]; } }
    if n >= 3 { assert Dialogs(es[n - 3..]) == Dialogs(es[n - 2..]) by { assert es[n - 3..][1..] == es[n - 2..]; } }
    if n >= 4 { assert Dialogs(es[n - 4..]) == Dialogs(es[n - 3..]) by { assert es[n - 4..][1..] == es[n - 3..]; } }
    assert es[n - n..] == es;
  }

  class QuestionnairePageComponent {
    var userId: string
    var id: string
    var userType: string
    var gender: Option<string>
    var infantage: InfantAge
    var hideSecondaryItems: bool
    var foodItems: array<FoodItem>
    var submitting: bool
    /** The dialogs, navigations and backend calls made so far, in order. */
    ghost var effects: seq<Effect>

    /** A page for a signed-in user and a questionnaire whose items are loaded. */
    constructor (userId: string, id: string, userType: string, foodItems: array<FoodItem>)
      ensures this.userId == userId && this.id == id && this.userType == userType
      ensures this.foodItems == foodItems
      ensures gender == None && infantage == Undefined
      ensures !hideSecondaryItems && !submitting && effects == []
    {
      this.userId, this.id, this.userType := userId, id, userType;
      this.foodItems := foodItems;
      gender, infantage := None, Undefined;
      hideSecondaryItems, submitting := false, false;
      effects := [];
    }

    /** Flips the hide-secondary flag and nothing else. */
    method ToggleHideSecondaryItems()
      modifies this`hideSecondaryItems
      ensures hideSecondaryItems == !old(hideSecondaryItems)
    {
      hideSecondaryItems := !hideSecondaryItems;
    }

    /** The request list: one request per enabled item, in array order. */
    method BuildRequestList<R>(toRequest: FoodItem -> R) returns (itemList: seq<R>)
      ensures itemList == RequestsFor(foodItems[..], toRequest)
      ensures |itemList| == |EnabledSet(foodItems[..])| == |EnabledIndices(foodItems[..])|
      ensures forall j :: 0 <= j < |itemList| ==> itemList[j] == toRequest(foodItems[EnabledIndices(foodItems[..])[j]])
    {
      itemList := [];
      var i := 0;
      while i < foodItems.Length
        invariant 0 <= i <= foodItems.Length
        invariant itemList == RequestsFor(foodItems[..i], toRequest)
      {
        if !foodItems[i].disabled {
          var request := toRequest(foodItems[i]);
          itemList := itemList + [request];
        }
        assert foodItems[..i + 1][..i] == foodItems[..i];
        i := i + 1;
      }
      assert foodItems[..foodItems.Length] == foodItems[..];
      RequestsFollowIndices(foodItems[..], toRequest);
      EnabledCount(foodItems[..]);
    }

    /**
     * The synchronous part of a submit: set the guard, check gender, age and
     * every enabled item, and either show the incomplete dialog and drop the
     * guard, or send the request list to the nutrient calculation.
     */
    method SubmitQuestionnaire<R>(errorCount: FoodItem -> nat, toRequest: FoodItem -> R) returns (itemList: Option<seq<R>>)
      modifies this, foodItems
      ensures foodItems == old(foodItems) && hideSecondaryItems == old(hideSecondaryItems)
      ensures gender == old(gender) && infantage == old(infantage)
      ensures userId == old(userId) && id == old(id) && userType == old(userType)
      ensures foodItems[..] == PassItems(old(foodItems[..]), hideSecondaryItems)
      ensures itemList.None? <==> PageHasErrors(gender, infantage, foodItems[..], errorCount)
      ensures itemList.None? ==>
        && !submitting
        && effects == old(effects) + [OpenDialog(INCOMPLETE_TITLE, INCOMPLETE_MESSAGE)]
      ensures itemList.Some? ==>
        && submitting
        && itemList.value == RequestsFor(foodItems[..], toRequest)
        && effects == old(effects) + [CalculateNutrients(userId, id, userType, infantage, gender, |itemList.value|)]
    {
      submitting := true;
      var pageHasErrors := false;
      if GenderMissing(gender) {
        pageHasErrors := true;
      }
      if AgeFailsIntegerCheck(infantage) {
        pageHasErrors := true;
      }
      var i := 0;
      while i < foodItems.Length
        modifies foodItems
        invariant 0 <= i <= foodItems.Length
        invariant forall k :: 0 <= k < i ==> foodItems[k] == AfterPass(old(foodItems[k]), hideSecondaryItems)
        invariant forall k :: i <= k < foodItems.Length ==> foodItems[k] == old(foodItems[k])
        invariant pageHasErrors <==>
          || GenderMissing(gender) || AgeFailsIntegerCheck(infantage)
          || exists k :: 0 <= k < i && !foodItems[k].disabled && errorCount(foodItems[k]) > 0
      {
        if hideSecondaryItems && !foodItems[i].isPrimary {
          foodItems[i] := foodItems[i].(disabled := true);
        }
        if !foodItems[i].disabled {
          foodItems[i] := foodItems[i].(isSubmitted := true);
          if errorCount(foodItems[i]) > 0 {
            pageHasErrors := true;
          }
        }
        i := i + 1;
      }
      assert foodItems[..] == PassItems(old(foodItems[..]), hideSecondaryItems);
      if pageHasErrors {
        effects := effects + [OpenDialog(INCOMPLETE_TITLE, INCOMPLETE_MESSAGE)];
        submitting := false;
        itemList := None;
      } else {
        var list := BuildRequestList(toRequest);
        effects := effects + [CalculateNutrients(userId, id, userType, infantage, gender, |list|)];
        itemList := Some(list);
      }
    }

    /** `handleSubmissionError`: go home, show the error with the fixed suffix, drop the guard. */
    method HandleSubmissionError(message: string)
      modifies this`submitting, this`effects
      ensures !submitting
      ensures effects == old(effects) + SubmissionErrorEffects(message)
    {
      effects := effects + [NavigateHome];
      effects := effects + [OpenDialog(SUBMISSION_ERROR_TITLE, message + SUBMISSION_ERROR_SUFFIX)];
      submitting := false;
    }

    /**
     * The answer of the nutrient calculation: on an error, the submission
     * error path; on a result, the filtered nutrient maps are built and the
     * questionnaire is finalized, with the guard still up.
     */
    method OnCalculationResult(nutrientNames: seq<string>, response: CalcResponse)
      returns (nutrientMaps: Option<(map<string, int>, map<string, int>)>)
      modifies this`submitting, this`effects
      ensures response.CalcError? ==>
        && nutrientMaps.None? && !submitting
        && effects == old(effects) + SubmissionErrorEffects(response.message)
      ensures response.CalcResult? ==>
        && submitting == old(submitting)
        && effects == old(effects) + [FinalizeQuestionnaire(id)]
        && nutrientMaps.Some?
        && nutrientMaps.value.0.Keys == KeptNutrients(nutrientNames, response.dailyAverages, response.weeklyTotals)
        && nutrientMaps.value.1.Keys == nutrientMaps.value.0.Keys
        && (forall n :: n in nutrientMaps.value.0 ==>
              && nutrientMaps.value.0[n] == response.dailyAverages[n].value
              && nutrientMaps.value.1[n] == response.weeklyTotals[n].value)
    {
      match response
      case CalcError(message) =>
        HandleSubmissionError(message);
        nutrientMaps := None;
      case CalcResult(dailyAverages, weeklyTotals) =>
        var dailyMap, weeklyMap := BuildNutrientMaps(nutrientNames, dailyAverages, weeklyTotals);
        nutrientMaps := Some((dailyMap, weeklyMap));
        effects := effects + [FinalizeQuestionnaire(id)];
    }

    /** The answer of the finalization: go home and show success, or the submission error path; either way the guard drops. */
    method OnFinalizeResult(response: FinalizeResponse)
      modifies this`submitting, this`effects
      ensures !submitting
      ensures response.Finalized? ==>
        effects == old(effects) + [NavigateHome, OpenDialog(SUCCESS_TITLE, SUCCESS_MESSAGE)]
      ensures response.FinalizeError? ==>
        effects == old(effects) + SubmissionErrorEffects(response.message)
    {
      match response
      case Finalized =>
        effects := effects + [NavigateHome];
        effects := effects + [OpenDialog(SUCCESS_TITLE, SUCCESS_MESSAGE)];
        submitting := false;
      case FinalizeError(message) =>
        HandleSubmissionError(message);
    }

    /**
     * One whole submit attempt with the backend's two answers given: the
     * outcome follows the page's errors and the answers, the guard is down at
     * the end of every outcome, and the effects are those of the outcome.
     */
    method SubmitAndAwait<R>(errorCount: FoodItem -> nat, toRequest: FoodItem -> R, nutrientNames: seq<string>,
                             calculation: CalcResponse, finalization: FinalizeResponse)
      returns (outcome: SubmitOutcome, itemList: Option<seq<R>>)
      modifies this, foodItems
      ensures foodItems == old(foodItems) && hideSecondaryItems == old(hideSecondaryItems)
      ensures gender == old(gender) && infantage == old(infantage)
      ensures userId == old(userId) && id == old(id) && userType == old(userType)
      ensures foodItems[..] == PassItems(old(foodItems[..]), hideSecondaryItems)
      ensures !submitting
      ensures outcome.Incomplete? <==> PageHasErrors(gender, infantage, foodItems[..], errorCount)
      ensures outcome.CalculationFailed? <==> !outcome.Incomplete? && calculation.CalcError?
      ensures outcome.FinalizeFailed? <==> !outcome.Incomplete? && calculation.CalcResult? && finalization.FinalizeError?
      ensures outcome.Submitted? <==> !outcome.Incomplete? && calculation.CalcResult? && finalization.Finalized?
      ensures outcome.CalculationFailed? ==> outcome.message == calculation.message
      ensures outcome.FinalizeFailed? ==> outcome.message == finalization.message
      ensures itemList == if outcome.Incomplete? then None else Some(RequestsFor(foodItems[..], toRequest))
      ensures effects == old(effects) + AttemptEffects(CalculateNutrients(userId, id, userType, infantage, gender,
                                                                          |RequestsFor(foodItems[..], toRequest)|),
                                                       FinalizeQuestionnaire(id), outcome)
    {
      itemList := SubmitQuestionnaire(errorCount, toRequest);
      if itemList.None? {
        outcome := Incomplete;
        return;
      }
      var nutrientMaps := OnCalculationResult(nutrientNames, calculation);
      if nutrientMaps.None? {
        outcome := CalculationFailed(calculation.message);
        return;
      }
      OnFinalizeResult(finalization);
      outcome := if finalization.Finalized? then Submitted else FinalizeFailed(finalization.message);
    }

    /** `getFoodItemByPosition`: sorts the given array in place by position and returns that same array. */
    method GetFoodItemByPosition(arr: array<FoodItem>) returns (sortedArray: array<FoodItem>)
      modifies arr
      ensures sortedArray == arr
      ensures SortedByPosition(arr[..])
      ensures multiset(arr[..]) == multiset(old(arr[..]))
      ensures SortedByPosition(old(arr[..])) ==> arr[..] == old(arr[..])
    {
      var i := 0;
      while i < arr.Length
        invariant 0 <= i <= arr.Length
        invariant SortedByPosition(arr[..i])
        invariant multiset(arr[..]) == multiset(old(arr[..]))
        invariant SortedByPosition(old(arr[..])) ==> arr[..] == old(arr[..])
      {
        ghost var before := arr[..];
        assert SortedByPosition(before) ==> SortedByPosition(before[..i + 1]);
        InsertByPosition(arr, i);
        i := i + 1;
      }
      assert arr[..arr.Length] == arr[..];
      sortedArray := arr;
    }
  }

  /**
   * One step of the sort: moves `arr[i]` left past the larger positions
   * before it, so that the first `i + 1` items are sorted.
   */
  method InsertByPosition(arr: array<FoodItem>, i: nat)
    requires i < arr.Length
    requires SortedByPosition(arr[..i])
    modifies arr
    ensures SortedByPosition(arr[..i + 1])
    ensures multiset(arr[..]) == multiset(old(arr[..]))
    ensures arr[i + 1..] == old(arr[i + 1..])
    ensures SortedByPosition(old(arr[..i + 1])) ==> arr[..] == old(arr[..])
  {
    var j := i;
    while j > 0 && ComparePositions(arr[j - 1], arr[j]) > 0
      invariant 0 <= j <= i
      invariant forall k, l :: 0 <= k < l <= i && l != j ==> arr[k].itemPosition <= arr[l].itemPosition
      invariant multiset(arr[..]) == multiset(old(arr[..]))
      invariant arr[i + 1..] == old(arr[i + 1..])
      invariant SortedByPosition(old(arr[..i + 1])) ==> arr[..] == old(arr[..]) && j == i
    {
      SwapAdjacent(arr, j);
      j := j - 1;
    }
  }

  /** Exchanges `arr[j - 1]` and `arr[j]`. */
  method SwapAdjacent(arr: array<FoodItem>, j: nat)
    requires 0 < j < arr.Length
    modifies arr
    ensures arr[..] == old(arr[..])[j - 1 := old(arr[j])][j := old(arr[j - 1])]
    ensures multiset(arr[..]) == multiset(old(arr[..]))
  {
    arr[j - 1], arr[j] := arr[j], arr[j - 1];
  }
}
