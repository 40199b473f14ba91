/**
 * The `car-damage-uploader` component: it uploads the first selected file,
 * keeps the service's predictions, an error message and the image URL in
 * its fields, and, once the image has loaded, draws the overlay on its
 * canvas.
 */
module CarDamageUploader {
  import opened Text
  import opened Canvas
  import opened WordWrap
  import opened Overlay

  /** A file chosen in the file input. */
  datatype File = File(name: string, contents: seq<bv8>)

  /** How the request for one file ended. */
  datatype FetchOutcome =
    | Ok(predictions: seq<Prediction>)  // a response with `ok` set, and its JSON body's `predictions`
    | NotOk                             // a response without `ok`
    | Failed(message: string)           // `fetch` or `response.json()` threw an error with this message

  const ErrorPrefix: string := "Error uploading file: "
  const NotOkMessage: string := "Network response was not ok"

  /** The message shown for a failed upload: the fixed prefix, then the
      message of the error that was thrown. */
  function UploadError(outcome: FetchOutcome): (m: string)
    requires !outcome.Ok?
    ensures |m| > |ErrorPrefix| || (outcome.Failed? && outcome.message == [])
    ensures |m| >= |ErrorPrefix| && m[..|ErrorPrefix|] == ErrorPrefix
    ensures m[|ErrorPrefix|..] == if outcome.NotOk? then NotOkMessage else outcome.message
  {
    ErrorPrefix + (if outcome.NotOk? then NotOkMessage else outcome.message)
  }

  class FileUpload {
    var predictions: seq<Prediction>
    var errorMessage: string
    var imageUrl: string
    var canvasRef: Context2D

    /** An error is never shown together with predictions, and every error
        shown is an upload error. */
    ghost predicate Valid()
      reads this
    {
      && (errorMessage == "" || predictions == [])
      && (errorMessage != "" ==> |errorMessage| >= |ErrorPrefix| && errorMessage[..|ErrorPrefix|] == ErrorPrefix)
    }

    constructor (canvas: Context2D)
      ensures predictions == [] && errorMessage == "" && imageUrl == "" && canvasRef == canvas
      ensures Valid()
    {
      predictions, errorMessage, imageUrl := [], "", "";
      canvasRef := canvas;
    }

    /**
     * The input's change handler: only the first selected file is uploaded,
     * and nothing changes when no file is selected. `respond` gives the
     * request's outcome and `objectUrl` the URL created for a file.
     */
    method HandleFileUpload(files: seq<File>, respond: File -> FetchOutcome, objectUrl: File -> string)
      modifies this`predictions, this`errorMessage, this`imageUrl
      ensures files == [] ==>
        predictions == old(predictions) && errorMessage == old(errorMessage) && imageUrl == old(imageUrl)
      ensures files != [] && respond(files[0]).Ok? ==>
        predictions == respond(files[0]).predictions && errorMessage == "" && imageUrl == objectUrl(files[0])
      ensures files != [] && !respond(files[0]).Ok? ==>
        predictions == [] && errorMessage == UploadError(respond(files[0])) && imageUrl == old(imageUrl)
      ensures files != [] || old(Valid()) ==> Valid()
    {
      if |files| > 0 {
        var file := files[0];
        UploadFile(file, respond(file), objectUrl(file));
      }
    }

    /**
     * The field updates of one upload. On success the predictions are
     * replaced wholesale, the error is cleared and the image URL is set; on
     * failure the predictions are cleared, the error is set and the previous
     * image URL stays.
     */
    method UploadFile(file: File, outcome: FetchOutcome, url: string)
      modifies this`predictions, this`errorMessage, this`imageUrl
      ensures outcome.Ok? ==> predictions == outcome.predictions && errorMessage == "" && imageUrl == url
      ensures !outcome.Ok? ==>
        predictions == [] && errorMessage == UploadError(outcome) && imageUrl == old(imageUrl)
      ensures Valid()
    {
      match outcome
      case Ok(ps) =>
        predictions := ps;
        errorMessage := "";
        imageUrl := url;
      case NotOk =>
        errorMessage := ErrorPrefix + NotOkMessage;
        predictions := [];
      case Failed(message) =>
        errorMessage := ErrorPrefix + message;
        predictions := [];
    }

    /**
     * Draws the loaded image and, for each prediction in list order, its box
     * and its wrapped label. The canvas takes the image's size; the line
     * width is 2 once a box has been drawn.
     */
    method DrawBoundingBoxes(img: Image)
      modifies canvasRef`width, canvasRef`height, canvasRef`lineWidth, canvasRef`ops
      ensures canvasRef.width == img.width && canvasRef.height == img.height
      ensures canvasRef.ops == old(canvasRef.ops) + OverlayOps(img, predictions, canvasRef.measure)
      ensures canvasRef.lineWidth == if predictions == [] then old(canvasRef.lineWidth) else BoxLineWidth
    {
      var canvas, ps := canvasRef, predictions;
      canvas.SetSize(img.width, img.height);
      canvas.Clear(0.0, 0.0, canvas.width as real, canvas.height as real);
      canvas.Draw(0.0, 0.0);
      ghost var measure := canvas.measure;
      ghost var start := [ClearRect(0.0, 0.0, img.width as real, img.height as real), DrawImage(0.0, 0.0)];
      ghost var head := old(canvas.ops) + start;
      var i := 0;
      while i < |ps|
        invariant 0 <= i <= |ps|
        invariant canvas.width == img.width && canvas.height == img.height
        invariant canvas.ops == head + PredictionsOps(ps[..i], measure)
        invariant canvas.lineWidth == if i == 0 then old(canvas.lineWidth) else BoxLineWidth
      {
        LogAppend(head, PredictionsOps(ps[..i], measure), PredictionOps(ps[i], measure));
        DrawPrediction(canvas, ps[i]);
        PredictionsOpsPrefix(ps, i, measure);
        i := i + 1;
      }
      assert ps[..i] == ps;
      LogAppend(old(canvas.ops), start, PredictionsOps(ps, measure));
    }

    /**
     * The `forEach` callback for one prediction: the box from its top-left
     * corner with a 2-pixel line, then its label wrapped from that corner.
     */
    method DrawPrediction(ctx: Context2D, prediction: Prediction)
      modifies ctx`lineWidth, ctx`ops
      ensures ctx.ops == old(ctx.ops) + PredictionOps(prediction, ctx.measure)
      ensures ctx.lineWidth == BoxLineWidth
    {
      var x := prediction.x - prediction.width / 2.0;
      var y := prediction.y - prediction.height / 2.0;
      ctx.SetLineWidth(BoxLineWidth);
      ctx.Stroke(x, y, prediction.width, prediction.height);
      var text := prediction.name + " " + IntToString(Percent(prediction.confidence)) + "%";
      assert text == LabelText(prediction) && Point(x, y) == Corner(prediction);
      LogAppend(old(ctx.ops), [BoxStroke(prediction)], WrapOps(text, x, y, DefaultMaxWidth, ctx.measure));
      DrawWrappedText(ctx, text, x, y, DefaultMaxWidth);
    }

    /**
     * Draws `text` wrapped to `maxWidth` from (x, y) down: the lines of the
     * greedy layout of `text.split(' ')`, one line height apart.
     */
    method DrawWrappedText(ctx: Context2D, text: string, x: real, y: real, maxWidth: real)
      modifies ctx`ops
      ensures ctx.ops == old(ctx.ops) + WrapOps(text, x, y, maxWidth, ctx.measure)
    {
      var words := Split(text);
      SplitTokens(text);
      DrawWords(ctx, words, x, y, maxWidth);
    }

    /**
     * The loop of `drawWrappedText` over the tokens: a token is added to the
     * current line while the line still fits, and otherwise the current line
     * is drawn and the token opens the next one, a line height further down;
     * the last line is drawn after the loop, even when there were no tokens.
     */
    method DrawWords(ctx: Context2D, words: seq<string>, x: real, y: real, maxWidth: real)
      modifies ctx`ops
      ensures ctx.ops == old(ctx.ops) +
        if words == [] then [FillText("", x, y)] else LinesOps(Layout(words, ctx.measure, maxWidth), x, y)
    {
      var line := "";
      var lineY := y;
      ghost var init: seq<seq<string>> := [];
      ghost var last: seq<string> := [];
      var n := 0;
      while n < |words|
        invariant 0 <= n <= |words|
        invariant n == 0 ==> init == [] && last == []
        invariant n > 0 ==> Layout(words[..n], ctx.measure, maxWidth) == init + [last]
        invariant line == Render(last) && lineY == LineTop(y, |init|)
        invariant ctx.ops == old(ctx.ops) + LinesOps(init, x, y)
      {
        line, lineY, init, last := PlaceWord(ctx, words, n, line, x, lineY, maxWidth, y, old(ctx.ops), init, last);
        n := n + 1;
      }
      if n > 0 {
        assert words[..n] == words;
        LinesOpsSnoc(init, last, x, y);
        LogAppend(old(ctx.ops), LinesOps(init, x, y), [FillText(line, x, lineY)]);
      }
      ctx.Fill(line, x, lineY);
    }

    /**
     * One iteration of the loop of `drawWrappedText`: token n joins the
     * current line when the line still fits with it (or it is the first
     * token); otherwise the current line is drawn at `lineY` and the token
     * opens the next line, a line height further down.
     */
    method PlaceWord(ctx: Context2D, words: seq<string>, n: nat, line: string, x: real, lineY: real, maxWidth: real,
                     ghost y: real, ghost log: seq<DrawOp>, ghost init: seq<seq<string>>, ghost last: seq<string>)
        returns (line': string, lineY': real, ghost init': seq<seq<string>>, ghost last': seq<string>)
      requires n < |words|
      requires n == 0 ==> init == [] && last == []
      requires n > 0 ==> Layout(words[..n], ctx.measure, maxWidth) == init + [last]
      requires line == Render(last) && lineY == LineTop(y, |init|)
      requires ctx.ops == log + LinesOps(init, x, y)
      modifies ctx`ops
      ensures Layout(words[..n + 1], ctx.measure, maxWidth) == init' + [last']
      ensures line' == Render(last') && lineY' == LineTop(y, |init'|)
      ensures ctx.ops == log + LinesOps(init', x, y)
    {
      var lineHeight := LineHeight;
      var testLine := line + words[n] + " ";
      var testWidth := ctx.measure(testLine);
      WrapStep(words, n, init, last, ctx.measure, maxWidth);
      if testWidth > maxWidth && n > 0 {
        LinesOpsSnoc(init, last, x, y);
        LogAppend(log, LinesOps(init, x, y), [FillText(line, x, lineY)]);
        ctx.Fill(line, x, lineY);
        line', lineY' := words[n] + " ", lineY + lineHeight;
        init', last' := init + [last], [words[n]];
      } else {
        line', lineY' := testLine, lineY;
        init', last' := init, last + [words[n]];
      }
    }
  }
}
