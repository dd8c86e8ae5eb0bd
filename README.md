# Image adjustment recommender — Dafny model

This project models the page script `script.js` of a small web page. The page
classifies an uploaded image with a pretrained model and recommends one of six
adjustments. When the user clicks "auto adjust", it applies the recommended CSS
filter to the uploaded image. The model covers the path from a score vector to an
applied filter:

- `displayResult` picks the first maximal score, looks up its Korean label and
  writes `추천 보정: <label>` into the result text.
- The click handler gets the label back with `split(": ")[1]`.
- `applyAdjustment` maps the label to one filter through a six-way `switch`.
- The guards (no model yet, no uploaded image, empty result text) and the error
  texts.

Modules:

- `Builtins` (`builtins.dfy`): the JavaScript built-ins the script relies on, over
  exact values. These are `Math.max(...)`, `Array.prototype.indexOf`, `String.prototype.split`
  with a non-empty separator, and array indexing past the end (`undefined` is `None`).
- `Recommendation` (`recommendation.dfy`): the label table, the argmax with
  first-occurrence tie-breaking, the result text, its parse, and the error texts.
- `Adjustment` (`adjustment.dfy`): the label-to-filter switch, and what it does to
  the image's filter.
- `Handlers` (`handlers.dfy`): class `Page` holds the page state. Its fields are
  `modelLoaded`, `resultText`, `hasUploadedImage`, `filter` and the log of `alerts`.
  Its methods are the event handlers. Three client methods (`SuccessfulAdjustment`,
  `FailedModelLoad`, `ClickBeforeUpload`) run whole event sequences and assert
  what they lead to.

Foreign inputs become parameters:

- The outcome of `tf.loadLayersModel` is the `loaded` flag of `LoadModel`.
- Whether the browser's file set-up throws is the `setupThrows` flag of `SelectFile`.
- The outcome of preprocessing and inference is the `inference` argument of
  `ImageLoaded`: `None` when it throws, otherwise the six scores.
- The initial text of the result element comes from the page markup, which is not
  part of this model. It is a constructor parameter.

Two behaviours of the code that a reader might not expect:

- A click before any successful inference is not always refused by the click
  guard. The code checks only that an uploaded image exists and that the result
  text is non-empty (script.js:73). So after a load or processing error, with an
  uploaded image present, the click passes that guard. Piece 1 of the error text is
  `undefined`, so the click ends in the `switch`'s default branch ("unknown
  recommendation"). The filter stays unchanged either way.
- The label is not passed directly from the mapper to the applicator. The code
  round-trips it through the display text, and the model proves that this round trip
  is exact for the six labels (`Recommendation.LabelsRoundTrip`, an instance of the
  if-and-only-if `Recommendation.RoundTrip`).

## Model

| member | source | states |
|---|---|---|
| `Builtins.Max` | script.js:67 | `Math.max` of a non-empty score list is one of its elements and no element exceeds it |
| `Builtins.IndexOf` | script.js:67 | `indexOf` returns -1 exactly when the value is absent; otherwise it returns a position holding the value with no earlier one |
| `Builtins.Find` | script.js:78 | the search for the separator returns -1 exactly when it never occurs; otherwise it returns its first occurrence |
| `Builtins.Split` | script.js:78 | the definition of `split` for a non-empty separator; it always yields at least one piece, and `SplitJoin` and `SplitPiecesAvoidSeparator` state what the pieces are |
| `Builtins.SplitJoin` | script.js:78 | for every string, joining the pieces of `split` with the separator gives the string back |
| `Builtins.SplitPiecesAvoidSeparator` | script.js:78 | for every string, no piece of `split` contains the separator |
| `Builtins.Element` | script.js:78 | `pieces[1]` is defined exactly when there are at least two pieces, and then it is that piece |
| `Builtins.SplitWithoutSeparator` | script.js:78 | a string without the separator splits into itself alone |
| `Builtins.FirstPiece` | script.js:78 | the first piece is the whole string if and only if the separator does not occur in it |
| `Builtins.SplitAfterHead` | script.js:78 | when the first separator follows `head`, the pieces are `head` then the pieces of the rest |
| `Builtins.AbsentLeadCharacter` | script.js:78 | a string lacking the separator's first character contains no separator |
| `Recommendation.HighestPrediction` | script.js:67 | the chosen index is in range, holds a maximal score, and every earlier score is strictly smaller |
| `Recommendation.HighestPredictionIsUnique` | script.js:67 | an index is the lowest maximal one if and only if it is the one chosen |
| `Recommendation.TieBreakExamples` | script.js:67 | `[0.5,0.5,0.1,0.1,0.1,0.1]` gives index 0 (tie to the first); `[0.2,0.2,0.9,0.1,0.1,0.1]` gives index 2 |
| `Recommendation.RecommendedLabel` | script.js:66-68 | any six scores give one of the six labels, never `undefined`, and it is the label of the lowest maximal score |
| `Recommendation.DisplayText` | script.js:65-69 | the text written for six scores parses back to exactly the recommended label |
| `Recommendation.ResultText` | script.js:68 | the definition of the template `추천 보정: ${…}`: the text is the prefix followed by the label; `RoundTrip` and `LabelsRoundTrip` state how it parses back |
| `Recommendation.ParseRecommendation` | script.js:78 | the definition of `split(": ")[1]`: `undefined` exactly when the text has no `": "`, and otherwise a piece without `": "`; `RoundTrip` and `LabelsRoundTrip` state that it inverts `ResultText` |
| `Recommendation.LabelsHaveNoSeparator` | script.js:66 | none of the six labels contains `": "` |
| `Recommendation.PrefixSplitsOnce` | script.js:68 | for any label, the result text splits into `추천 보정` followed by the pieces of the label |
| `Recommendation.RoundTrip` | script.js:78 | parsing the result text gives back exactly the label if and only if the label contains no `": "` |
| `Recommendation.LabelsRoundTrip` | script.js:66-78 | each of the six labels is recovered exactly from its result text |
| `Recommendation.ErrorTextsParseToUndefined` | script.js:54-61 | piece 1 of the three error texts (script.js:15, 56, 61) is `undefined` |
| `Adjustment.AdjustmentFilter` | script.js:82-105 | the switch selects a filter if and only if the recommendation is one of the six labels; anything else, `undefined` included, goes to the default branch |
| `Adjustment.FilterAfter` | script.js:85-103 | the definition of the switch's effect on `image.style.filter`: the filter is kept or becomes one of the six; `FilterAfterOverwrites`, `FilterAfterIdempotent` and `FilterAfterLastWins` state its properties |
| `Adjustment.FilterTable` | script.js:83-101 | label i of the table gets, in order, `brightness(1.3)`, `brightness(0.7)`, `contrast(1.5)`, `contrast(0.8)`, `sepia(0.3)`, `hue-rotate(200deg)` |
| `Adjustment.FiltersDistinct` | script.js:84-101 | the six labels are pairwise distinct, and so are their six filters |
| `Adjustment.FilterAfterOverwrites` | script.js:85-103 | a known label sets a filter that does not depend on the previous one; an unknown one keeps the previous filter |
| `Adjustment.FilterAfterIdempotent` | script.js:85-100 | applying the same recommendation twice equals applying it once |
| `Adjustment.FilterAfterLastWins` | script.js:85-100 | after two applications the filter is that of the last known label |
| `Adjustment.RecommendationAlwaysApplies` | script.js:65-101 | for any six scores, the displayed-then-parsed recommendation selects a filter, the one of the first maximal score's label |
| `Adjustment.ErrorTextsAreUnknown` | script.js:102-103 | the three error texts end in the default branch |
| `Handlers.Page.constructor` | script.js:1-5 | the page starts with no model, no uploaded image, no filter, no alerts, and the markup's result text |
| `Handlers.Page.LoadModel` | script.js:8-17 | success makes the model available; failure writes the load-error text; nothing else changes |
| `Handlers.Page.SelectFile` | script.js:23-62 | no file means no change; a throwing set-up writes the file-error text; nothing else changes |
| `Handlers.Page.PreviewLoaded` | script.js:29-31 | a fresh `uploadedImage` element exists, and it has no filter |
| `Handlers.Page.ImageLoaded` | script.js:36-57 | without a model, or when inference throws, the result text is the image-error text and holds no recommendation; otherwise it is the display text of the scores; nothing else changes |
| `Handlers.Page.DisplayResult` | script.js:65-69 | the result text becomes the display text, whose parse is the recommended label |
| `Handlers.Page.AutoAdjustClick` | script.js:71-80 | without an uploaded image or with an empty result text: one alert, and neither filter nor result text changes; otherwise the parsed recommendation is applied |
| `Handlers.Page.ApplyAdjustment` | script.js:82-105 | a known label overwrites the filter with its own and raises no alert; anything else raises one alert and keeps the filter; the page invariant holds |

## Left out

- Model loading itself (`tf.loadLayersModel`, script.js:11) is a foreign library call and a network fetch. Only its outcome is modelled, as the `loaded` flag.
- Preprocessing and inference (`tf.tidy`, `fromPixels`, `resizeNearestNeighbor`, `toFloat`, `expandDims`, `predict`, `data`, `dispose`; script.js:43-52) are opaque floating-point tensor operations. The score vector is an input. Tensor release is not modelled.
- Browser I/O (`FileReader`, `URL.createObjectURL`, `innerHTML`, `getElementById`, `addEventListener`) is DOM plumbing. The uploaded image element is the flag `hasUploadedImage`, and the preview's replacement is modelled as resetting the filter.
- Asynchronous ordering and races are event-loop behaviour: `reader.onload` against `image.onload`, or a re-upload while a prediction is in flight. The callbacks are separate methods that may be called in any order. No interleaving inside a handler is modelled.
- JavaScript number semantics are left out: NaN, ±Infinity, -0, and the empty score list (`Math.max()` is -Infinity, so the index is -1 and the label is `undefined`). Scores are exact reals.
- Recommendation.RecommendedLabel: requires exactly six scores, as the model produces. For a longer vector whose maximum lies past index 5, the script would show `undefined`, and that case is not modelled.
- Console output (`console.log`, `console.error`) is left out.
- `alert` blocks the page until dismissed. The model only records the message in `alerts`.
