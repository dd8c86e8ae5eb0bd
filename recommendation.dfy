/** The recommendation mapper of `displayResult` (script.js:65-69): the argmax of the
    score vector with first-occurrence tie-breaking, the six display labels, the
    `추천 보정: <label>` result text, and the `split(": ")[1]` parse that the click
    handler (script.js:78) uses to get the label back. */
module Recommendation {
  import opened Builtins

  /** The display labels in score order (script.js:66): brighter, darker, more
      contrast, softer contrast, warmer, cooler. */
  const LABELS: seq<string> := ["밝게", "어둡게", "대비 강하게", "대비 부드럽게", "따뜻하게", "차갑게"]

  /** The fixed text before the label in the result line (script.js:68). */
  const PREFIX := "추천 보정: "

  /** The separator the click handler splits the result text on (script.js:78). */
  const SEPARATOR := ": "

  /** Result texts written on the error paths: model loading (script.js:15), image
      processing (script.js:56) and file handling (script.js:61). */
  const MODEL_LOAD_ERROR := "모델 로딩에 실패했습니다. 콘솔을 확인해주세요."
  const IMAGE_ERROR := "이미지 처리 중 에러가 발생했습니다."
  const FILE_ERROR := "파일 처리 중 에러가 발생했습니다."

  /** `k` is the lowest index whose score equals the maximum score. */
  ghost predicate IsFirstMax(scores: seq<real>, k: int)
  {
    && 0 <= k < |scores|
    && (forall j :: 0 <= j < |scores| ==> scores[j] <= scores[k])
    && (forall j :: 0 <= j < k ==> scores[j] < scores[k])
  }

  /** `predictions.indexOf(Math.max(...predictions))` (script.js:67). */
  function HighestPrediction(scores: seq<real>): (k: nat)
    requires |scores| > 0
    ensures k < |scores|
    ensures IsFirstMax(scores, k)
  {
    IndexOf(scores, Max(scores))
  }

  /** The label shown for a score vector of the model's six outputs (script.js:66-68). */
  function RecommendedLabel(scores: seq<real>): (name: string)
    requires |scores| == |LABELS|
    ensures name in LABELS
    ensures exists k :: IsFirstMax(scores, k) && name == LABELS[k]
  {
    LABELS[HighestPrediction(scores)]
  }

  /** The result text `추천 보정: ${label}` (script.js:68). */
  function ResultText(name: string): (text: string)
    ensures |text| == |PREFIX| + |name|
    ensures text[..|PREFIX|] == PREFIX && text[|PREFIX|..] == name
  {
    PREFIX + name
  }

  /** `text.split(": ")[1]` (script.js:78): the second piece, or `undefined`. It is
      `undefined` exactly when the text has no `": "`, and a piece never holds one. */
  function ParseRecommendation(text: string): (r: Option<string>)
    ensures r.None? <==> Avoids(text, SEPARATOR)
    ensures r.Some? ==> Avoids(r.value, SEPARATOR)
  {
    SplitPiecesAvoidSeparator(text, SEPARATOR);
    Element(Split(text, SEPARATOR), 1)
  }

  /** The text `displayResult` writes for a score vector; the click handler's parse
      gets the recommended label back from it. */
  function DisplayText(scores: seq<real>): (text: string)
    requires |scores| == |LABELS|
    ensures ParseRecommendation(text) == Some(RecommendedLabel(scores))
  {
    var name := RecommendedLabel(scores);
    assert name in LABELS;
    LabelsHaveNoSeparator();
    RoundTrip(name);
    ResultText(name)
  }

  /** Any index meeting the first-maximum description is the one chosen. */
  lemma HighestPredictionIsUnique(scores: seq<real>, k: int)
    requires |scores| > 0
    ensures IsFirstMax(scores, k) <==> k == HighestPrediction(scores)
  {
  }

  /** The two tie-breaking examples: equal leading scores pick index 0; a strict
      maximum at index 2 picks index 2. */
  lemma TieBreakExamples()
    ensures HighestPrediction([0.5, 0.5, 0.1, 0.1, 0.1, 0.1]) == 0
    ensures HighestPrediction([0.2, 0.2, 0.9, 0.1, 0.1, 0.1]) == 2
  {
    HighestPredictionIsUnique([0.5, 0.5, 0.1, 0.1, 0.1, 0.1], 0);
    HighestPredictionIsUnique([0.2, 0.2, 0.9, 0.1, 0.1, 0.1], 2);
  }

  /** No label contains the separator (none of them contains a colon). */
  lemma LabelsHaveNoSeparator()
    ensures forall name :: name in LABELS ==> Avoids(name, SEPARATOR)
  {
    forall name | name in LABELS ensures Avoids(name, SEPARATOR) {
      AbsentLeadCharacter(name, SEPARATOR);
    }
  }

  /** The separator first occurs right after `추천 보정`, whatever follows. */
  lemma PrefixSplitsOnce(name: string)
    ensures Split(ResultText(name), SEPARATOR) == ["추천 보정"] + Split(name, SEPARATOR)
  {
    var head := "추천 보정";
    assert PREFIX == head + SEPARATOR;
    assert ResultText(name) == head + SEPARATOR + name;
    assert AbsentBefore(head + SEPARATOR + name, SEPARATOR, |head|) by {
      forall i: nat | i < |head| ensures !OccursAt(head + SEPARATOR + name, SEPARATOR, i) {
        assert (head + SEPARATOR + name)[i] == head[i];
      }
    }
    SplitAfterHead(head, SEPARATOR, name);
  }

  /** Parsing the result text gives back exactly the label written into it if and
      only if the label does not itself contain `": "`. */
  lemma RoundTrip(name: string)
    ensures ParseRecommendation(ResultText(name)) == Some(name)
        <==> Avoids(name, SEPARATOR)
  {
    PrefixSplitsOnce(name);
    FirstPiece(name, SEPARATOR);
  }

  /** Every one of the six labels survives the display text and its parse. */
  lemma LabelsRoundTrip()
    ensures forall k :: 0 <= k < |LABELS| ==> ParseRecommendation(ResultText(LABELS[k])) == Some(LABELS[k])
  {
    LabelsHaveNoSeparator();
    forall k | 0 <= k < |LABELS| ensures ParseRecommendation(ResultText(LABELS[k])) == Some(LABELS[k]) {
      assert LABELS[k] in LABELS;
      RoundTrip(LABELS[k]);
    }
  }

  /** The error texts contain no `": "`, so their second piece is `undefined`. */
  lemma ErrorTextsParseToUndefined()
    ensures ParseRecommendation(MODEL_LOAD_ERROR) == None
    ensures ParseRecommendation(IMAGE_ERROR) == None
    ensures ParseRecommendation(FILE_ERROR) == None
  {
    AbsentLeadCharacter(MODEL_LOAD_ERROR, SEPARATOR);
    AbsentLeadCharacter(IMAGE_ERROR, SEPARATOR);
    AbsentLeadCharacter(FILE_ERROR, SEPARATOR);
  }
}
