/**
 * What `drawBoundingBoxes` draws for a loaded image and a prediction list:
 * the image at (0, 0), then, per prediction in list order, its box stroked
 * with a 2-pixel line and its label wrapped from the box's top-left corner.
 */
module Overlay {
  import opened Text
  import opened Canvas
  import opened WordWrap

  /** One detection as the service returns it. (x, y) is the box centre;
      `name` is the source's `label` field, a reserved word in Dafny. */
  datatype Prediction = Prediction(x: real, y: real, width: real, height: real, name: string, confidence: real)

  /** A loaded image, by its pixel size. */
  datatype Image = Image(width: nat, height: nat)

  datatype Point = Point(x: real, y: real)

  const BoxLineWidth: real := 2.0

  /** The box's top-left corner: the centre lies half a box further in. */
  function Corner(p: Prediction): (c: Point)
    ensures c.x + p.width / 2.0 == p.x && c.y + p.height / 2.0 == p.y
  {
    Point(p.x - p.width / 2.0, p.y - p.height / 2.0)
  }

  /** `Math.round(confidence * 100)`: the nearest integer, halves rounded up. */
  function Percent(confidence: real): (r: int)
    ensures r as real - 0.5 <= confidence * 100.0 < r as real + 0.5
  {
    (confidence * 100.0 + 0.5).Floor
  }

  /** The label drawn for a prediction, e.g. "dent 91%". */
  function LabelText(p: Prediction): string
  {
    p.name + " " + IntToString(Percent(p.confidence)) + "%"
  }

  /** The percentage is always the last token of the label and is never
      split; the label's own words come first. */
  lemma LabelTokens(p: Prediction)
    ensures Split(LabelText(p)) == Split(p.name) + [IntToString(Percent(p.confidence)) + "%"]
  {
    var pct := IntToString(Percent(p.confidence)) + "%";
    assert ' ' !in pct;
    assert LabelText(p) == p.name + " " + pct;
    SplitAppendWord(p.name, pct);
  }

  /** The box of a prediction: stroked from its top-left corner, with its
      size, and a 2-pixel line. */
  function BoxStroke(p: Prediction): DrawOp
  {
    StrokeRect(Corner(p).x, Corner(p).y, p.width, p.height, BoxLineWidth)
  }

  /** The calls issued for one prediction: its box, then its label. */
  function PredictionOps(p: Prediction, measure: Measure): seq<DrawOp>
  {
    [BoxStroke(p)] + WrapOps(LabelText(p), Corner(p).x, Corner(p).y, DefaultMaxWidth, measure)
  }

  /** The calls issued for a prediction list, in list order. */
  function PredictionsOps(ps: seq<Prediction>, measure: Measure): seq<DrawOp>
  {
    if ps == [] then [] else PredictionsOps(ps[..|ps| - 1], measure) + PredictionOps(ps[|ps| - 1], measure)
  }

  /** The calls for the first i + 1 predictions extend those for the first i. */
  lemma PredictionsOpsPrefix(ps: seq<Prediction>, i: nat, measure: Measure)
    requires i < |ps|
    ensures PredictionsOps(ps[..i + 1], measure) == PredictionsOps(ps[..i], measure) + PredictionOps(ps[i], measure)
  {
    assert ps[..i + 1][..i] == ps[..i];
  }

  /** The calls `drawBoundingBoxes(img)` issues. */
  function OverlayOps(img: Image, ps: seq<Prediction>, measure: Measure): seq<DrawOp>
  {
    [ClearRect(0.0, 0.0, img.width as real, img.height as real), DrawImage(0.0, 0.0)] + PredictionsOps(ps, measure)
  }

  /** The strokes of a trace, in order. */
  function Strokes(ops: seq<DrawOp>): seq<DrawOp>
  {
    if ops == [] then []
    else (if ops[0].StrokeRect? then [ops[0]] else []) + Strokes(ops[1..])
  }

  lemma {:induction false} StrokesConcat(a: seq<DrawOp>, b: seq<DrawOp>)
    ensures Strokes(a + b) == Strokes(a) + Strokes(b)
  {
    if a == [] {
      assert a + b == b;
    } else {
      var head := if a[0].StrokeRect? then [a[0]] else [];
      assert (a + b)[0] == a[0];
      assert (a + b)[1..] == a[1..] + b;
      StrokesConcat(a[1..], b);
      LogAppend(head, Strokes(a[1..]), Strokes(b));
    }
  }

  lemma {:induction false} NoStrokes(ops: seq<DrawOp>)
    requires forall k :: 0 <= k < |ops| ==> ops[k].FillText?
    ensures Strokes(ops) == []
  {
    if ops != [] {
      NoStrokes(ops[1..]);
    }
  }

  /** A label never strokes anything; its only stroke is its box. */
  lemma PredictionStrokes(p: Prediction, measure: Measure)
    ensures Strokes(PredictionOps(p, measure)) == [BoxStroke(p)]
  {
    var c := Corner(p);
    var text := WrapOps(LabelText(p), c.x, c.y, DefaultMaxWidth, measure);
    assert forall k :: 0 <= k < |text| ==> text[k].FillText? by {
      WrapDrawsText(LabelText(p), c.x, c.y, DefaultMaxWidth, measure);
    }
    NoStrokes(text);
    StrokesConcat([BoxStroke(p)], text);
    assert Strokes([BoxStroke(p)]) == [BoxStroke(p)] + Strokes([]);
  }

  /** The boxes of a list with one more prediction at its end. */
  lemma BoxesSnoc(init: seq<Prediction>, p: Prediction, before: seq<DrawOp>)
    requires |before| == |init|
    requires forall k :: 0 <= k < |init| ==> before[k] == BoxStroke(init[k])
    ensures var ps, strokes := init + [p], before + [BoxStroke(p)];
      && |strokes| == |ps|
      && forall k :: 0 <= k < |ps| ==> strokes[k] == BoxStroke(ps[k])
  {
  }

  /**
   * The boxes are stroked one per prediction, in list order: the k-th stroke
   * is the k-th prediction's box.
   */
  lemma {:induction false} BoxesInOrder(ps: seq<Prediction>, measure: Measure)
    ensures var strokes := Strokes(PredictionsOps(ps, measure));
      && |strokes| == |ps|
      && forall k :: 0 <= k < |ps| ==> strokes[k] == BoxStroke(ps[k])
  {
    if ps != [] {
      var init, p := ps[..|ps| - 1], ps[|ps| - 1];
      var before := Strokes(PredictionsOps(init, measure));
      BoxesInOrder(init, measure);
      BoxesSnoc(init, p, before);
      assert init + [p] == ps;
      assert Strokes(PredictionsOps(ps, measure)) == before + [BoxStroke(p)] by {
        assert PredictionsOps(ps, measure) == PredictionsOps(init, measure) + PredictionOps(p, measure);
        StrokesConcat(PredictionsOps(init, measure), PredictionOps(p, measure));
        PredictionStrokes(p, measure);
      }
    }
  }

  /** Each label followed by one space, for every prediction in order. */
  function LabelsText(ps: seq<Prediction>): string
  {
    if ps == [] then "" else LabelsText(ps[..|ps| - 1]) + LabelText(ps[|ps| - 1]) + " "
  }

  /** The texts drawn are the labels, in list order, none cut or dropped. */
  lemma {:induction false} LabelsInOrder(ps: seq<Prediction>, measure: Measure)
    ensures Texts(PredictionsOps(ps, measure)) == LabelsText(ps)
  {
    if ps != [] {
      var init, p := ps[..|ps| - 1], ps[|ps| - 1];
      assert Texts(PredictionOps(p, measure)) == LabelText(p) + " " by {
        var c := Corner(p);
        TextsConcat([BoxStroke(p)], WrapOps(LabelText(p), c.x, c.y, DefaultMaxWidth, measure));
        assert Texts([BoxStroke(p)]) == "" + Texts([]);
        WrapDrawsText(LabelText(p), c.x, c.y, DefaultMaxWidth, measure);
      }
      assert Texts(PredictionsOps(ps, measure)) == Texts(PredictionsOps(init, measure)) + Texts(PredictionOps(p, measure)) by {
        TextsConcat(PredictionsOps(init, measure), PredictionOps(p, measure));
      }
      LabelsInOrder(init, measure);
    }
  }

  /** The image is drawn first, over the cleared canvas, before any box. */
  lemma ImageFirst(img: Image, ps: seq<Prediction>, measure: Measure)
    ensures var ops := OverlayOps(img, ps, measure);
      && |ops| >= 2
      && ops[0] == ClearRect(0.0, 0.0, img.width as real, img.height as real)
      && ops[1] == DrawImage(0.0, 0.0)
      && Strokes(ops) == Strokes(PredictionsOps(ps, measure))
  {
    var head := [ClearRect(0.0, 0.0, img.width as real, img.height as real), DrawImage(0.0, 0.0)];
    StrokesConcat(head, PredictionsOps(ps, measure));
    assert Strokes(head) == Strokes(head[1..]);
    assert Strokes(head[1..]) == Strokes([]);
  }

  /** A dent centred at (100, 50), 40 by 20, with confidence 0.91: its box
      starts at (80, 40) and its label reads "dent 91%". */
  lemma DentExample()
    ensures var p := Prediction(100.0, 50.0, 40.0, 20.0, "dent", 0.91);
      && BoxStroke(p) == StrokeRect(80.0, 40.0, 40.0, 20.0, 2.0)
      && LabelText(p) == "dent 91%"
  {
    assert Percent(0.91) == 91;
    assert NatToString(91) == NatToString(9) + [DigitChar(1)];
  }
}
