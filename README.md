# car-damage-uploader, modelled in Dafny

The `car-damage-uploader` web component lets a user pick a photo of a car and
sends it to a damage-detection service. The service answers with a list of
predictions: a box centre, a size, a label and a confidence. The component
keeps the predictions, an error message and the image URL in its state. Once
the image has loaded, it draws the image on a canvas, strokes each box and
writes each box's label ("dent 91%") from the box's top-left corner. Labels
are greedily word-wrapped to 100 pixels.

The project models this component in five modules:

- `Text` (`text.dfy`) holds JavaScript's `split(' ')` on a single space.
  Consecutive spaces give empty tokens, and the result is never empty.
  It is proved against its inverse `Join`. The module also holds the decimal
  rendering of integers used in a template literal, proved against its value.
- `Canvas` (`canvas.dfy`) is the canvas element and its 2D context. It has a
  mutable size, a current line width and the log of drawing calls issued.
  Text width is an abstract `measure` function standing in for
  `measureText(..).width`.
- `WordWrap` (`word_wrap.dfy`) is the greedy layout that `drawWrappedText`
  builds. `Layout` is the token-by-token specification. `IsGreedy` describes
  the same layout without the loop: every word kept in order, no empty line,
  every added token fit when it was added, and every break was forced. The
  two are proved equivalent, so the layout is unique. The drawn texts and
  their positions are derived from the layout.
- `Overlay` (`overlay.dfy`) gives the calls `drawBoundingBoxes` issues as a
  function of the image and the predictions. It proves where each box goes,
  what each label reads, and the order in which boxes and labels appear.
- `CarDamageUploader` (`car_damage_uploader.dfy`) is the component itself:
  the class `FileUpload` with its state fields. Its methods change the fields
  and the canvas step by step as the source does, with loops proved against
  the functions above.

## Model

| member | source | states |
|---|---|---|
| Text.SplitTokens | src/components/src/car-damage-uploader.tsx:90 | `text.split(' ')` yields at least one token, no token contains a space, and joining the tokens with single spaces gives the text back |
| Text.SplitJoin | src/components/src/car-damage-uploader.tsx:90 | splitting the space-join of one or more space-free tokens gives those tokens back |
| Text.SplitAppendWord | src/components/src/car-damage-uploader.tsx:90 | appending a space and a space-free word appends exactly that word as one more token |
| Text.IntToStringValue | src/components/src/car-damage-uploader.tsx:84 | the decimal text of an integer in a template literal reads back as that integer, with a leading '-' exactly for negatives |
| WordWrap.Layout | src/components/src/car-damage-uploader.tsx:94-106 | the layout has no lines exactly when there are no tokens, and never more lines than tokens |
| WordWrap.WrapStep | src/components/src/car-damage-uploader.tsx:95-105 | one loop iteration on the layout: if the current line followed by the token is wider than maxWidth and it is not the first token, the current line is committed and the token opens a new line; otherwise the token joins the current line, whose text grows by the token and a space |
| WordWrap.LayoutIsGreedy | src/components/src/car-damage-uploader.tsx:94-106 | the loop's layout is greedy: the tokens in order, no empty line, each token that joined a line fit when it joined, and each break was forced |
| WordWrap.GreedyIsLayout | src/components/src/car-damage-uploader.tsx:94-106 | any greedy layout of the tokens is the loop's layout, so the layout is unique |
| WordWrap.LayoutKeepsWords | src/components/src/car-damage-uploader.tsx:94-106 | no token is dropped, cut or reordered: the lines read in order are the tokens |
| WordWrap.LinesFitOrSingle | src/components/src/car-damage-uploader.tsx:99-104 | every line fits within maxWidth unless it holds a single token, which is drawn even when too wide |
| WordWrap.FirstTokenOpensFirstLine | src/components/src/car-damage-uploader.tsx:99 | the guard `n > 0` keeps the first token from causing a break: it opens the first line |
| WordWrap.LayoutGrows | src/components/src/car-damage-uploader.tsx:99-105 | adding a token never decreases the number of lines |
| WordWrap.WrapKeepsText | src/components/src/car-damage-uploader.tsx:89-107 | the drawn lines put together give the text followed by one space, the trailing space of the last line |
| WordWrap.BreaksWideWords | src/components/src/car-damage-uploader.tsx:99-102 | two or more tokens that are too wide together on one line give at least two lines |
| WordWrap.WrapBreaksWideText | src/components/src/car-damage-uploader.tsx:89-107 | a text with a space whose width (trailing space included) exceeds maxWidth is drawn on at least two lines |
| WordWrap.FitsOnOneLine | src/components/src/car-damage-uploader.tsx:94-106 | for a measure that never shrinks when text is appended, tokens that fit together stay on a single line |
| WordWrap.WrapKeepsNarrowText | src/components/src/car-damage-uploader.tsx:89-107 | for such a measure, a text whose width (trailing space included) is within maxWidth is drawn on exactly one line |
| WordWrap.LinesOpsAt | src/components/src/car-damage-uploader.tsx:92-107 | one fillText per line, the k-th at x and y + 20k |
| WordWrap.WrapDrawsText | src/components/src/car-damage-uploader.tsx:89-107 | drawing a text issues one fillText per layout line, at least one, the k-th with that line's text at (x, y + 20k); together they spell the text plus one space |
| Overlay.Corner | src/components/src/car-damage-uploader.tsx:73-74 | the box's top-left corner lies half the box's width and height before its centre |
| Overlay.Percent | src/components/src/car-damage-uploader.tsx:84 | `Math.round(confidence * 100)`: the integer nearest to the percentage, halves rounded up |
| Overlay.LabelTokens | src/components/src/car-damage-uploader.tsx:84 | the label splits into the label name's own tokens followed by the percentage, which is never split |
| Overlay.PredictionsOpsPrefix | src/components/src/car-damage-uploader.tsx:72 | `forEach` adds one more prediction's calls after the calls of those before it |
| Overlay.PredictionStrokes | src/components/src/car-damage-uploader.tsx:75-84 | the only stroke for a prediction is its box; its label only fills text |
| Overlay.BoxesInOrder | src/components/src/car-damage-uploader.tsx:72-79 | one box is stroked per prediction, in list order, the k-th at the k-th prediction's corner with its size and a 2-pixel line |
| Overlay.LabelsInOrder | src/components/src/car-damage-uploader.tsx:72-86 | the texts drawn are the labels, in list order, each followed by one space, none cut or dropped |
| Overlay.ImageFirst | src/components/src/car-damage-uploader.tsx:64-65 | the canvas is cleared to the image's size and the image drawn at (0, 0) before any box |
| Overlay.DentExample | src/components/src/car-damage-uploader.tsx:73-84 | a dent centred at (100, 50), 40 by 20, at 0.91 gets its box at (80, 40) and the label "dent 91%" |
| CarDamageUploader.UploadError | src/components/src/car-damage-uploader.tsx:32-42 | a failed upload's message is "Error uploading file: " followed by the thrown error's message, which is "Network response was not ok" for a response without `ok` |
| CarDamageUploader.FileUpload.constructor | src/components/src/car-damage-uploader.tsx:9-12 | no predictions, no error and no image URL at first |
| CarDamageUploader.FileUpload.HandleFileUpload | src/components/src/car-damage-uploader.tsx:14-20 | only the first selected file is uploaded; with no file nothing changes |
| CarDamageUploader.FileUpload.UploadFile | src/components/src/car-damage-uploader.tsx:22-45 | on success the predictions are replaced, the error cleared and the image URL set; on failure the predictions are cleared, the error set and the image URL kept; an error and predictions are never shown together |
| CarDamageUploader.FileUpload.DrawBoundingBoxes | src/components/src/car-damage-uploader.tsx:55-87 | the canvas takes the image's size and receives exactly the overlay's calls after what it held, and the line width is 2 once a box has been drawn |
| CarDamageUploader.FileUpload.DrawPrediction | src/components/src/car-damage-uploader.tsx:72-86 | one prediction adds its box stroke with a 2-pixel line, then its wrapped label from the box's corner |
| CarDamageUploader.FileUpload.DrawWrappedText | src/components/src/car-damage-uploader.tsx:89-108 | the calls added are exactly the fillText calls of the greedy layout of `text.split(' ')` |
| CarDamageUploader.FileUpload.DrawWords | src/components/src/car-damage-uploader.tsx:91-107 | the loop draws the lines of the greedy layout of the tokens, one line height apart; with no tokens it draws one empty line |
| CarDamageUploader.FileUpload.PlaceWord | src/components/src/car-damage-uploader.tsx:95-105 | one iteration of the loop keeps its invariant: the current line's text and height and the lines drawn so far are those of the greedy layout of the tokens read so far |
| Canvas.Context2D.SetSize | src/components/src/car-damage-uploader.tsx:60-61 | the canvas takes the given width and height; its frame lets nothing else change |
| Canvas.Context2D.Clear | src/components/src/car-damage-uploader.tsx:64 | `clearRect` appends exactly one `ClearRect` with its rectangle to the log |
| Canvas.Context2D.Draw | src/components/src/car-damage-uploader.tsx:65 | `drawImage` appends exactly one `DrawImage` at its position to the log |
| Canvas.Context2D.SetLineWidth | src/components/src/car-damage-uploader.tsx:77 | the line width becomes the given value; its frame lets nothing else change |
| Canvas.Context2D.Stroke | src/components/src/car-damage-uploader.tsx:75-79 | `beginPath(); rect(..); stroke()` logs one rectangle stroke with the current line width |
| Canvas.Context2D.Fill | src/components/src/car-damage-uploader.tsx:100-107 | `fillText` logs one text at its position |

## Left out

- The rendered markup, styles and decorators (`render`, `@Component`, `@State`) are not modelled: they produce no state changes of their own apart from keeping `canvasRef` (src/components/src/car-damage-uploader.tsx:110-124).
- The request itself (`FormData`, `fetch`, `response.json()`) is I/O. It is reduced to a `FetchOutcome` parameter: a response with `ok` and its `predictions`, a response without `ok`, or an error with its message.
- The service is assumed to return a well-formed prediction list. A body without `predictions`, or a prediction missing a field, is not modelled; the source would then draw "undefined" or throw inside `forEach`.
- `URL.createObjectURL` is a parameter giving the URL for a file.
- `loadImage` and the image's `onload` callback are asynchronous and are not modelled as calls. `DrawBoundingBoxes` takes the loaded image's size, as `onload` would pass it.
- Overlapping uploads are not modelled. An earlier request that resolves late could overwrite a later one's state; the model runs one upload to completion.
- `input.files` being `null` is treated like an empty selection; both do nothing.
- `measureText` is an abstract `measure` function of the text. Fonts and glyph metrics are not modelled.
- Colours (`strokeStyle`, `fillStyle`) and `closePath` are not recorded. `beginPath`, `rect` and `stroke` are recorded as one stroke.
- `textBaseline = 'top'` is not recorded either: it only decides which edge of the text sits at the recorded y, here the top.
- The font `bold 20px Arial` is not a separate setting in the model: it is represented by the canvas's `measure`, which stands for `measureText(..).width` under that font and so decides every line break.
- Resizing a canvas also resets its context state; the model keeps the line width across a resize.
- Numbers are reals, not IEEE doubles. Floating-point rounding of `x - width / 2`, of `confidence * 100` and of `y += 20` is not captured, and neither is how JavaScript prints non-integer or huge numbers.
- WordWrap.WrapKeepsNarrowText: holds only for a measure that never shrinks when text is appended. A real font has this property, but the abstract measure does not guarantee it.
- Text.Split: splits on the single space character only, as `split(' ')` does; tabs and other whitespace stay inside tokens.
