/** The adjustment applicator `applyAdjustment` (script.js:82-105): a switch from the
    recommended label to one CSS filter, with a default branch for anything else. */
module Adjustment {
  import opened Builtins
  import opened Recommendation

  /** The filter the switch selects for a recommendation (script.js:83-101); `None`
      is the default branch (script.js:102-103). JavaScript's `switch` compares with
      strict equality, so `undefined` matches no case. */
  function AdjustmentFilter(recommendation: Option<string>): (filter: Option<string>)
    ensures filter.Some? <==> recommendation.Some? && recommendation.value in LABELS
  {
    match recommendation
    case None => None
    case Some(r) =>
      if r == "밝게" then Some("brightness(1.3)")
      else if r == "어둡게" then Some("brightness(0.7)")
      else if r == "대비 강하게" then Some("contrast(1.5)")
      else if r == "대비 부드럽게" then Some("contrast(0.8)")
      else if r == "따뜻하게" then Some("sepia(0.3)")
      else if r == "차갑게" then Some("hue-rotate(200deg)")
      else None
  }

  /** `f` is one of the six filters the switch can write. */
  ghost predicate IsKnownFilter(f: string)
  {
    exists k :: 0 <= k < |LABELS| && AdjustmentFilter(Some(LABELS[k])) == Some(f)
  }

  /** The image's filter after `applyAdjustment`: the selected filter replaces the
      current one outright; the default branch keeps the current one. So the filter
      is either kept or becomes one of the six. */
  function FilterAfter(current: string, recommendation: Option<string>): (filter: string)
    ensures filter == current || IsKnownFilter(filter)
  {
    match AdjustmentFilter(recommendation)
    case Some(f) =>
      var k :| 0 <= k < |LABELS| && LABELS[k] == recommendation.value;
      assert AdjustmentFilter(Some(LABELS[k])) == Some(f);
      f
    case None => current
  }

  /** The filter of each label, position by position in the label table. */
  lemma FilterTable()
    ensures AdjustmentFilter(Some(LABELS[0])) == Some("brightness(1.3)")
    ensures AdjustmentFilter(Some(LABELS[1])) == Some("brightness(0.7)")
    ensures AdjustmentFilter(Some(LABELS[2])) == Some("contrast(1.5)")
    ensures AdjustmentFilter(Some(LABELS[3])) == Some("contrast(0.8)")
    ensures AdjustmentFilter(Some(LABELS[4])) == Some("sepia(0.3)")
    ensures AdjustmentFilter(Some(LABELS[5])) == Some("hue-rotate(200deg)")
  {
  }

  /** The labels are pairwise distinct, and so are their six filters: the mapping
      from label position to filter is one-to-one. */
  lemma FiltersDistinct()
    ensures forall i, j :: 0 <= i < j < |LABELS| ==> LABELS[i] != LABELS[j]
    ensures forall i, j :: 0 <= i < j < |LABELS| ==>
      AdjustmentFilter(Some(LABELS[i])) != AdjustmentFilter(Some(LABELS[j]))
  {
    FilterTable();
  }

  /** Overwrite, not composition: the result does not depend on the current filter
      when the recommendation is known, and it is unchanged when it is not. */
  lemma FilterAfterOverwrites(current: string, other: string, recommendation: Option<string>)
    ensures AdjustmentFilter(recommendation).Some? ==>
      FilterAfter(current, recommendation) == FilterAfter(other, recommendation)
    ensures AdjustmentFilter(recommendation).None? ==>
      FilterAfter(current, recommendation) == current
  {
  }

  /** Applying the same recommendation twice leaves the filter as applying it once. */
  lemma FilterAfterIdempotent(current: string, recommendation: Option<string>)
    ensures FilterAfter(FilterAfter(current, recommendation), recommendation)
         == FilterAfter(current, recommendation)
  {
  }

  /** After two applications the filter is that of the last known label. */
  lemma FilterAfterLastWins(current: string, first: Option<string>, second: Option<string>)
    requires AdjustmentFilter(second).Some?
    ensures FilterAfter(FilterAfter(current, first), second) == AdjustmentFilter(second).value
  {
  }

  /** The whole recommendation path: whatever the six scores, the text written by
      `displayResult` and parsed back by the click handler selects the filter of the
      first maximal score's label. */
  lemma RecommendationAlwaysApplies(scores: seq<real>)
    requires |scores| == |LABELS|
    ensures AdjustmentFilter(ParseRecommendation(DisplayText(scores))).Some?
    ensures AdjustmentFilter(ParseRecommendation(DisplayText(scores)))
         == AdjustmentFilter(Some(LABELS[HighestPrediction(scores)]))
  {
  }

  /** The error texts reach the default branch. */
  lemma ErrorTextsAreUnknown()
    ensures AdjustmentFilter(ParseRecommendation(MODEL_LOAD_ERROR)).None?
    ensures AdjustmentFilter(ParseRecommendation(IMAGE_ERROR)).None?
    ensures AdjustmentFilter(ParseRecommendation(FILE_ERROR)).None?
  {
    ErrorTextsParseToUndefined();
  }
}
