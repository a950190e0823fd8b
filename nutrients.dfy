/**
 * The nutrient summary built from a calculation result: a nutrient is kept
 * only when both its daily average and its weekly total are present.
 */
module Nutrients {

  import opened Wrappers

  /** Raw per-nutrient values: a missing key is `undefined`, `None` is `null`. */
  type RawValues = map<string, Option<int>>

  /** The value is neither `undefined` nor `null`. */
  predicate Present(values: RawValues, nutrient: string)
  {
    nutrient in values && values[nutrient].Some?
  }

  /** The names of the list whose daily and weekly values are both present. */
  ghost function KeptNutrients(names: seq<string>, dailyAverages: RawValues, weeklyTotals: RawValues): set<string>
  {
    set n | n in names && Present(dailyAverages, n) && Present(weeklyTotals, n)
  }

  /**
   * The loop over the nutrient names: both maps receive a nutrient exactly
   * when both of its values are present, with the raw values unchanged.
   */
  method BuildNutrientMaps(names: seq<string>, dailyAverages: RawValues, weeklyTotals: RawValues)
    returns (dailyMap: map<string, int>, weeklyMap: map<string, int>)
    ensures dailyMap.Keys == KeptNutrients(names, dailyAverages, weeklyTotals)
    ensures weeklyMap.Keys == dailyMap.Keys
    ensures forall n :: n in names && !(Present(dailyAverages, n) && Present(weeklyTotals, n)) ==>
      n !in dailyMap && n !in weeklyMap
    ensures forall n :: n in dailyMap ==>
      && Present(dailyAverages, n) && dailyMap[n] == dailyAverages[n].value
      && Present(weeklyTotals, n) && weeklyMap[n] == weeklyTotals[n].value
  {
    dailyMap, weeklyMap := map[], map[];
    for i := 0 to |names|
      invariant dailyMap.Keys == KeptNutrients(names[..i], dailyAverages, weeklyTotals)
      invariant weeklyMap.Keys == dailyMap.Keys
      invariant forall n :: n in dailyMap ==>
        && Present(dailyAverages, n) && dailyMap[n] == dailyAverages[n].value
        && Present(weeklyTotals, n) && weeklyMap[n] == weeklyTotals[n].value
    {
      var nutrient := names[i];
      var dailyValue := if nutrient in dailyAverages then dailyAverages[nutrient] else None;
      var weeklyValue := if nutrient in weeklyTotals then weeklyTotals[nutrient] else None;
      if dailyValue.Some? && weeklyValue.Some? {
        dailyMap := dailyMap[nutrient := dailyValue.value];
        weeklyMap := weeklyMap[nutrient := weeklyValue.value];
      }
      assert names[..i + 1] == names[..i] + [nutrient];
    }
    assert names[..|names|] == names;
  }

  /** A nutrient with one value `null` is dropped from the summary; the others are kept. */
  lemma PartialNutrientDropped()
    ensures KeptNutrients(["iron", "zinc"], map["iron" := Some(5), "zinc" := None],
                          map["iron" := Some(35), "zinc" := Some(12)]) == {"iron"}
  {
  }
}
