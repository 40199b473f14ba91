/**
 * The HTML canvas element together with its 2D context, reduced to what the
 * uploader uses: the element's size, the current line width, and the log of
 * drawing calls issued on the context, in order.
 */
module Canvas {

  /** One drawing call on the 2D context. A stroke records the line width in
      force when it was issued. */
  datatype DrawOp =
    | ClearRect(x: real, y: real, w: real, h: real)
    | DrawImage(x: real, y: real)
    | StrokeRect(x: real, y: real, w: real, h: real, lineWidth: real)
    | FillText(text: string, x: real, y: real)

  /** Appending calls to the log in two steps is appending them at once. */
  lemma LogAppend(log: seq<DrawOp>, a: seq<DrawOp>, b: seq<DrawOp>)
    ensures log + a + b == log + (a + b)
  {
  }

  /** Pixel width of a string in the context's current font. */
  type Measure = string -> real

  class Context2D {
    var width: nat
    var height: nat
    var lineWidth: real
    var ops: seq<DrawOp>
    /** `measureText(..).width` under the label font `bold 20px Arial`. */
    const measure: Measure

    /** A fresh canvas: 300 by 150 pixels, line width 1, nothing drawn. */
    constructor (measure: Measure)
      ensures width == 300 && height == 150 && lineWidth == 1.0 && ops == []
      ensures this.measure == measure
    {
      width, height, lineWidth, ops := 300, 150, 1.0, [];
      this.measure := measure;
    }

    method SetSize(w: nat, h: nat)
      modifies this`width, this`height
      ensures width == w && height == h
    {
      width, height := w, h;
    }

    method SetLineWidth(lw: real)
      modifies this`lineWidth
      ensures lineWidth == lw
    {
      lineWidth := lw;
    }

    method Clear(x: real, y: real, w: real, h: real)
      modifies this`ops
      ensures ops == old(ops) + [ClearRect(x, y, w, h)]
    {
      ops := ops + [ClearRect(x, y, w, h)];
    }

    method Draw(x: real, y: real)
      modifies this`ops
      ensures ops == old(ops) + [DrawImage(x, y)]
    {
      ops := ops + [DrawImage(x, y)];
    }

    /** `beginPath(); rect(x, y, w, h); stroke()` with the current line width. */
    method Stroke(x: real, y: real, w: real, h: real)
      modifies this`ops
      ensures ops == old(ops) + [StrokeRect(x, y, w, h, lineWidth)]
    {
      ops := ops + [StrokeRect(x, y, w, h, lineWidth)];
    }

    method Fill(text: string, x: real, y: real)
      modifies this`ops
      ensures ops == old(ops) + [FillText(text, x, y)]
    {
      ops := ops + [FillText(text, x, y)];
    }
  }
}
