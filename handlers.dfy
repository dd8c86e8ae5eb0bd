/** The page state of script.js and its event handlers: model loading (script.js:8-17),
    the file `change` handler with its two callbacks (script.js:23-63), `displayResult`
    (script.js:65-69), the auto-adjust `click` handler (script.js:71-80) and
    `applyAdjustment` (script.js:82-105). The asynchronous callbacks are separate
    methods, so a caller may run them in any order. */
module Handlers {
  import opened Builtins
  import opened Recommendation
  import opened Adjustment

  /** Alert raised by a click before an image was uploaded and analysed (script.js:74). */
  const UPLOAD_FIRST_ALERT := "이미지를 먼저 업로드하고 분석해주세요."

  /** Alert raised by the default branch of `applyAdjustment` (script.js:103). */
  const UNKNOWN_ALERT := "알 수 없는 추천입니다."

  class Page {
    /** Whether the global `model` holds a loaded model (script.js:1, 11). */
    var modelLoaded: bool
    /** `result.textContent`. */
    var resultText: string
    /** Whether an element with id `uploadedImage` exists (script.js:30, 72). */
    var hasUploadedImage: bool
    /** `style.filter` of the `uploadedImage` element. */
    var filter: string
    /** The alerts raised so far, oldest first. */
    var alerts: seq<string>

    /** Without an uploaded image there is no filter; otherwise the filter is unset or
        one that `applyAdjustment` wrote. */
    ghost predicate Valid()
      reads this
    {
      && (!hasUploadedImage ==> filter == "")
      && (filter == "" || IsKnownFilter(filter))
    }

    /** The page before any event: no model yet, no uploaded image, and the result
        element holding whatever text the page markup gives it. */
    constructor (initialText: string)
      ensures Valid()
      ensures !modelLoaded && resultText == initialText
      ensures !hasUploadedImage && filter == "" && alerts == []
    {
      modelLoaded := false;
      resultText := initialText;
      hasUploadedImage := false;
      filter := "";
      alerts := [];
    }

    /** `loadModel` (script.js:8-17) with the outcome of `tf.loadLayersModel` as a
        parameter: success stores the model, failure writes the load-error text. */
    method LoadModel(loaded: bool)
      requires Valid()
      modifies this
      ensures Valid()
      ensures modelLoaded == (old(modelLoaded) || loaded)
      ensures resultText == if loaded then old(resultText) else MODEL_LOAD_ERROR
      ensures hasUploadedImage == old(hasUploadedImage) && filter == old(filter)
      ensures alerts == old(alerts)
    {
      if loaded {
        modelLoaded := true;
      } else {
        resultText := MODEL_LOAD_ERROR;
      }
    }

    /** The synchronous part of the `change` handler (script.js:23-35, 59-62): no file
        means nothing happens; if setting up the reader or the object URL throws, the
        file-error text is written. Otherwise the two callbacks below run later. */
    method SelectFile(fileChosen: bool, setupThrows: bool)
      requires Valid()
      modifies this
      ensures Valid()
      ensures resultText == if fileChosen && setupThrows then FILE_ERROR else old(resultText)
      ensures modelLoaded == old(modelLoaded) && hasUploadedImage == old(hasUploadedImage)
      ensures filter == old(filter) && alerts == old(alerts)
    {
      if !fileChosen {
        return;
      }
      if setupThrows {
        resultText := FILE_ERROR;
      }
    }

    /** `reader.onload` (script.js:29-31): the preview markup is replaced by a fresh
        `uploadedImage` element, which carries no filter. */
    method PreviewLoaded()
      requires Valid()
      modifies this
      ensures Valid()
      ensures hasUploadedImage && filter == ""
      ensures modelLoaded == old(modelLoaded) && resultText == old(resultText)
      ensures alerts == old(alerts)
    {
      hasUploadedImage := true;
      filter := "";
    }

    /** `image.onload` (script.js:36-57). Without a model it throws before any tensor
        exists, and the catch writes the image-error text. Otherwise `inference` is the
        outcome of preprocessing and `model.predict(...).data()`: `None` when they
        throw (same error text), or the model's six scores, which go to
        `displayResult`. */
    method ImageLoaded(inference: Option<seq<real>>)
      requires Valid()
      requires inference.Some? ==> |inference.value| == |LABELS|
      modifies this
      ensures Valid()
      ensures !modelLoaded ==> resultText == IMAGE_ERROR
      ensures modelLoaded && inference.None? ==> resultText == IMAGE_ERROR
      ensures modelLoaded && inference.Some? ==> resultText == DisplayText(inference.value)
      ensures modelLoaded == old(modelLoaded) && hasUploadedImage == old(hasUploadedImage)
      ensures filter == old(filter) && alerts == old(alerts)
    {
      if !modelLoaded {
        resultText := IMAGE_ERROR;
        return;
      }
      match inference
      case None =>
        resultText := IMAGE_ERROR;
      case Some(scores) =>
        DisplayResult(scores);
    }

    /** `displayResult` (script.js:65-69): writes `추천 보정: ` and the label of the
        first maximal score. */
    method DisplayResult(scores: seq<real>)
      requires |scores| == |LABELS|
      modifies this`resultText
      ensures resultText == DisplayText(scores)
      ensures ParseRecommendation(resultText) == Some(RecommendedLabel(scores))
    {
      var highest := HighestPrediction(scores);
      resultText := ResultText(LABELS[highest]);
    }

    /** The auto-adjust `click` handler (script.js:71-80): without an uploaded image or
        with an empty result text it alerts and changes nothing else; otherwise it
        passes piece 1 of the result text split on `": "` to `applyAdjustment`. */
    method AutoAdjustClick()
      requires Valid()
      modifies this
      ensures Valid()
      ensures !old(hasUploadedImage) || old(resultText) == "" ==>
        filter == old(filter) && alerts == old(alerts) + [UPLOAD_FIRST_ALERT]
      ensures old(hasUploadedImage) && old(resultText) != "" ==>
        var recommendation := ParseRecommendation(old(resultText));
        && filter == FilterAfter(old(filter), recommendation)
        && alerts == old(alerts) + (if AdjustmentFilter(recommendation).Some? then [] else [UNKNOWN_ALERT])
      ensures modelLoaded == old(modelLoaded) && resultText == old(resultText)
      ensures hasUploadedImage == old(hasUploadedImage)
    {
      if !hasUploadedImage || resultText == "" {
        alerts := alerts + [UPLOAD_FIRST_ALERT];
        return;
      }
      var recommendation := ParseRecommendation(resultText);
      ApplyAdjustment(recommendation);
    }

    /** `applyAdjustment` (script.js:82-105) on the uploaded image: a known label
        overwrites the filter with its own; anything else alerts and keeps the filter. */
    method ApplyAdjustment(recommendation: Option<string>)
      requires Valid() && hasUploadedImage
      modifies this`filter, this`alerts
      ensures Valid()
      ensures filter == FilterAfter(old(filter), recommendation)
      ensures alerts == old(alerts) + (if AdjustmentFilter(recommendation).Some? then [] else [UNKNOWN_ALERT])
    {
      match AdjustmentFilter(recommendation)
      case Some(f) =>
        filter := f;
      case None =>
        alerts := alerts + [UNKNOWN_ALERT];
    }
  }

  /** The page's intended use: the model loads, an image is uploaded, inference scores
      the first label highest, and a click brightens the image; a second click keeps
      the same filter. */
  method SuccessfulAdjustment()
  {
    var page := new Page("");
    page.LoadModel(true);
    page.SelectFile(true, false);
    page.PreviewLoaded();
    var scores := [0.9, 0.05, 0.02, 0.01, 0.01, 0.01];
    page.ImageLoaded(Some(scores));
    HighestPredictionIsUnique(scores, 0);
    assert page.resultText == ResultText(LABELS[0]);
    LabelsRoundTrip();
    assert ParseRecommendation(page.resultText) == Some(LABELS[0]);
    FilterTable();
    page.AutoAdjustClick();
    assert page.filter == "brightness(1.3)" && page.alerts == [];
    page.AutoAdjustClick();
    assert page.filter == "brightness(1.3)" && page.alerts == [];
  }

  /** A failed model load: the image handler reports the image error and the click
      reaches the default branch, which alerts and leaves the image unfiltered. */
  method FailedModelLoad()
  {
    var page := new Page("");
    page.LoadModel(false);
    assert page.resultText == MODEL_LOAD_ERROR;
    page.SelectFile(true, false);
    page.PreviewLoaded();
    page.ImageLoaded(Some([0.9, 0.05, 0.02, 0.01, 0.01, 0.01]));
    assert page.resultText == IMAGE_ERROR;
    ErrorTextsAreUnknown();
    page.AutoAdjustClick();
    assert page.filter == "" && page.alerts == [UNKNOWN_ALERT];
  }

  /** A click before any upload only alerts. */
  method ClickBeforeUpload()
  {
    var page := new Page("");
    page.LoadModel(true);
    page.AutoAdjustClick();
    assert page.filter == "" && page.resultText == "" && page.alerts == [UPLOAD_FIRST_ALERT];
  }
}
