/**
 * The questionnaire's food items (FFQItem) and what the questionnaire page
 * computes from a sequence of them: the per-item update of the submit pass,
 * the items that take part in a submission, and the ordering by position.
 */
module FoodItems {

  /**
   * One food item of the questionnaire. `answers` stands for the fields the
   * respondent fills in (frequency, serving size, ...); the page never reads
   * them itself, only through the item's error state and the calculation
   * request built from it, which are parameters of the page's methods.
   */
  datatype FoodItem = FoodItem(
    itemPosition: int,
    name: string,
    isPrimary: bool,
    disabled: bool,
    isSubmitted: bool,
    answers: seq<string>)

  /**
   * The update the submit pass applies to one item: a secondary item is
   * disabled while secondary items are hidden, and an item that is then
   * enabled is marked submitted. Nothing else about the item changes.
   */
  function AfterPass(x: FoodItem, hideSecondaryItems: bool): (y: FoodItem)
    ensures hideSecondaryItems && !x.isPrimary ==> y.disabled
    ensures x.disabled ==> y.disabled
    ensures x.isPrimary || !hideSecondaryItems ==> y.disabled == x.disabled
    ensures !y.disabled ==> y.isSubmitted
    ensures y.disabled ==> y.isSubmitted == x.isSubmitted
    ensures y == x.(disabled := y.disabled, isSubmitted := y.isSubmitted)
  {
    var x' := if hideSecondaryItems && !x.isPrimary then x.(disabled := true) else x;
    if !x'.disabled then x'.(isSubmitted := true) else x'
  }

  /** The whole item list after the submit pass. */
  function PassItems(s: seq<FoodItem>, hideSecondaryItems: bool): seq<FoodItem>
  {
    seq(|s|, k requires 0 <= k < |s| => AfterPass(s[k], hideSecondaryItems))
  }

  /** The positions (array indices) of the enabled items, in array order. */
  function EnabledIndices(s: seq<FoodItem>): (r: seq<int>)
    ensures forall j :: 0 <= j < |r| ==> 0 <= r[j] < |s|
  {
    if s == [] then []
    else
      var n := |s| - 1;
      EnabledIndices(s[..n]) + (if !s[n].disabled then [n] else [])
  }

  /** The set of indices of enabled items. */
  function EnabledSet(s: seq<FoodItem>): set<int>
  {
    set i | 0 <= i < |s| && !s[i].disabled
  }

  /** The calculation requests for the enabled items, one per item, in array order. */
  function RequestsFor<R>(s: seq<FoodItem>, toRequest: FoodItem -> R): seq<R>
  {
    if s == [] then []
    else
      var n := |s| - 1;
      RequestsFor(s[..n], toRequest) + (if !s[n].disabled then [toRequest(s[n])] else [])
  }

  /** The enabled indices are listed in increasing order, and exactly the enabled items are listed. */
  lemma {:induction false} EnabledIndicesExact(s: seq<FoodItem>)
    ensures forall j, l :: 0 <= j < l < |EnabledIndices(s)| ==> EnabledIndices(s)[j] < EnabledIndices(s)[l]
    ensures forall i :: i in EnabledIndices(s) <==> 0 <= i < |s| && !s[i].disabled
  {
    if s != [] {
      var n := |s| - 1;
      EnabledIndicesExact(s[..n]);
      assert forall i :: 0 <= i < n ==> s[..n][i] == s[i];
    }
  }

  /** The j-th request is built from the j-th enabled item. */
  lemma {:induction false} RequestsFollowIndices<R>(s: seq<FoodItem>, toRequest: FoodItem -> R)
    ensures |RequestsFor(s, toRequest)| == |EnabledIndices(s)|
    ensures forall j :: 0 <= j < |RequestsFor(s, toRequest)| ==>
      RequestsFor(s, toRequest)[j] == toRequest(s[EnabledIndices(s)[j]])
  {
    if s != [] {
      var n := |s| - 1;
      RequestsFollowIndices(s[..n], toRequest);
      assert forall i :: 0 <= i < n ==> s[..n][i] == s[i];
    }
  }

  /** There are as many enabled indices as enabled items. */
  lemma {:induction false} EnabledCount(s: seq<FoodItem>)
    ensures |EnabledIndices(s)| == |EnabledSet(s)|
  {
    if s != [] {
      var n := |s| - 1;
      EnabledCount(s[..n]);
      var before := EnabledSet(s[..n]);
      assert forall i :: 0 <= i < n ==> s[..n][i] == s[i];
      assert n !in before;
      if !s[n].disabled {
        assert EnabledSet(s) == before + {n};
      } else {
        assert EnabledSet(s) == before;
      }
    }
  }

  /**
   * While secondary items are hidden, the submit pass leaves only primary
   * items enabled, so neither their errors nor requests for them count.
   */
  lemma HiddenSecondaryNotRequested(s: seq<FoodItem>, hideSecondaryItems: bool)
    ensures hideSecondaryItems ==>
      forall i :: i in EnabledIndices(PassItems(s, hideSecondaryItems)) ==> s[i].isPrimary
  {
    EnabledIndicesExact(PassItems(s, hideSecondaryItems));
  }

  /** The three-way comparator handed to the array sort. */
  function ComparePositions(a: FoodItem, b: FoodItem): (r: int)
    ensures r == -1 || r == 0 || r == 1
    ensures r < 0 <==> a.itemPosition < b.itemPosition
    ensures r > 0 <==> a.itemPosition > b.itemPosition
  {
    if a.itemPosition > b.itemPosition then 1
    else if a.itemPosition < b.itemPosition then -1
    else 0
  }

  /** The comparator is consistent: swapping its arguments negates its answer. */
  lemma ComparePositionsAntisymmetric(a: FoodItem, b: FoodItem)
    ensures ComparePositions(a, b) == -ComparePositions(b, a)
  {
  }

  /** Non-decreasing in `itemPosition`. */
  ghost predicate SortedByPosition(s: seq<FoodItem>)
  {
    forall i, j :: 0 <= i < j < |s| ==> s[i].itemPosition <= s[j].itemPosition
  }
}
