/**
 * The greedy word-wrap layout of `drawWrappedText`, as a specification over
 * tokens. A layout is a sequence of lines and a line is a sequence of
 * tokens; the text drawn for a line is each of its tokens followed by one
 * space, so a drawn line always keeps its trailing space.
 */
module WordWrap {
  import opened Text
  import opened Canvas

  const DefaultMaxWidth: real := 100.0

  /** The distance between the tops of two consecutive lines of a label. */
  const LineHeight: real := 20.0

  /** The text of a line: every token followed by one space. */
  function Render(line: seq<string>): string
  {
    if line == [] then "" else Render(line[..|line| - 1]) + line[|line| - 1] + " "
  }

  /** All lines of a layout, read in order. */
  function Flatten(lines: seq<seq<string>>): seq<string>
  {
    if lines == [] then [] else lines[0] + Flatten(lines[1..])
  }

  /** Concatenation of the texts of all lines. */
  function RenderAll(lines: seq<seq<string>>): string
  {
    if lines == [] then "" else Render(lines[0]) + RenderAll(lines[1..])
  }

  lemma RenderWord(w: string)
    ensures Render([w]) == w + " "
  {
    assert [w][..0] == [];
  }

  lemma {:induction false} RenderConcat(a: seq<string>, b: seq<string>)
    ensures Render(a + b) == Render(a) + Render(b)
  {
    if b == [] {
      assert a + b == a;
    } else {
      var init := b[..|b| - 1];
      assert (a + b)[..|a + b| - 1] == a + init;
      RenderConcat(a, init);
    }
  }

  lemma {:induction false} FlattenConcat(a: seq<seq<string>>, b: seq<seq<string>>)
    ensures Flatten(a + b) == Flatten(a) + Flatten(b)
  {
    if a == [] {
      assert a + b == b;
    } else {
      assert (a + b)[1..] == a[1..] + b;
      FlattenConcat(a[1..], b);
    }
  }

  /** The text of a non-empty token list is its join plus one trailing space. */
  lemma {:induction false} RenderIsJoin(tokens: seq<string>)
    requires |tokens| >= 1
    ensures Render(tokens) == Join(tokens) + " "
  {
    if |tokens| == 1 {
      RenderWord(tokens[0]);
    } else {
      var init := tokens[..|tokens| - 1];
      RenderIsJoin(init);
      JoinSnoc(init, tokens[|tokens| - 1]);
      assert init + [tokens[|tokens| - 1]] == tokens;
    }
  }

  /** Reading the lines' texts in order is reading the text of all tokens. */
  lemma {:induction false} RenderAllFlatten(lines: seq<seq<string>>)
    ensures RenderAll(lines) == Render(Flatten(lines))
  {
    if lines != [] {
      RenderAllFlatten(lines[1..]);
      RenderConcat(lines[0], Flatten(lines[1..]));
    }
  }

  /**
   * The layout the loop at car-damage-uploader.tsx:94-106 has built once it
   * has consumed `words`: the first token opens the first line; each later
   * token opens a new line when the current line followed by it is wider
   * than `maxWidth`, and joins the current line otherwise.
   */
  function Layout(words: seq<string>, measure: Measure, maxWidth: real): (lines: seq<seq<string>>)
    ensures (lines == []) == (words == [])
    ensures |lines| <= |words|
    decreases |words|
  {
    if words == [] then []
    else
      var ws, w := words[..|words| - 1], words[|words| - 1];
      if ws == [] then [[w]]
      else
        var prev := Layout(ws, measure, maxWidth);
        var last := prev[|prev| - 1];
        if measure(Render(last + [w])) > maxWidth then prev + [[w]]
        else prev[..|prev| - 1] + [last + [w]]
  }

  /**
   * One iteration of the loop at car-damage-uploader.tsx:94-106 on the
   * layout: `init` are the committed lines and `last` the current one (both
   * empty before the first token). Token n either opens a new line, the
   * current one being committed, or joins the current line.
   */
  lemma WrapStep(words: seq<string>, n: nat, init: seq<seq<string>>, last: seq<string>, measure: Measure, maxWidth: real)
    requires n < |words|
    requires n == 0 ==> init == [] && last == []
    requires n > 0 ==> Layout(words[..n], measure, maxWidth) == init + [last]
    ensures Render([words[n]]) == words[n] + " "
    ensures Render(last + [words[n]]) == Render(last) + words[n] + " "
    ensures measure(Render(last) + words[n] + " ") > maxWidth && n > 0 ==>
      Layout(words[..n + 1], measure, maxWidth) == (init + [last]) + [[words[n]]]
    ensures !(measure(Render(last) + words[n] + " ") > maxWidth && n > 0) ==>
      Layout(words[..n + 1], measure, maxWidth) == init + [last + [words[n]]]
  {
    var w := words[n];
    RenderWord(w);
    RenderSnoc(last, w);
    if n > 0 {
      LayoutNext(words, n, init, last, measure, maxWidth);
    } else {
      LayoutFirst(words, measure, maxWidth);
      assert [] + [last + [w]] == [[w]];
    }
  }

  /** The first token alone makes a one-line layout. */
  lemma LayoutFirst(words: seq<string>, measure: Measure, maxWidth: real)
    requires words != []
    ensures Layout(words[..1], measure, maxWidth) == [[words[0]]]
  {
    assert words[..1] == [words[0]];
  }

  /** LayoutAppend on the prefixes of `words`. */
  lemma LayoutNext(words: seq<string>, n: nat, init: seq<seq<string>>, last: seq<string>, measure: Measure, maxWidth: real)
    requires 0 < n < |words|
    requires Layout(words[..n], measure, maxWidth) == init + [last]
    ensures measure(Render(last + [words[n]])) > maxWidth ==>
      Layout(words[..n + 1], measure, maxWidth) == (init + [last]) + [[words[n]]]
    ensures measure(Render(last + [words[n]])) <= maxWidth ==>
      Layout(words[..n + 1], measure, maxWidth) == init + [last + [words[n]]]
  {
    assert words[..n + 1] == words[..n] + [words[n]];
    LayoutAppend(words[..n], init, last, words[n], measure, maxWidth);
  }

  /** The text of a line with one more token. */
  lemma RenderSnoc(line: seq<string>, w: string)
    ensures Render(line + [w]) == Render(line) + w + " "
  {
    assert (line + [w])[..|line|] == line;
  }

  /** WrapStep after the first token, on the layout of `ws`, `init + [last]`. */
  lemma LayoutAppend(ws: seq<string>, init: seq<seq<string>>, last: seq<string>, w: string, measure: Measure, maxWidth: real)
    requires ws != [] && Layout(ws, measure, maxWidth) == init + [last]
    ensures measure(Render(last + [w])) > maxWidth ==> Layout(ws + [w], measure, maxWidth) == (init + [last]) + [[w]]
    ensures measure(Render(last + [w])) <= maxWidth ==> Layout(ws + [w], measure, maxWidth) == init + [last + [w]]
  {
    var lines := Layout(ws, measure, maxWidth);
    assert lines[|lines| - 1] == last;
    assert lines[..|lines| - 1] == init;
    LayoutSnoc(ws, w, measure, maxWidth);
  }

  /** Each token the line gained after its first one still fit when added. */
  ghost predicate Accepted(line: seq<string>, measure: Measure, maxWidth: real)
  {
    forall j :: 2 <= j <= |line| ==> FitsUpTo(line, j, measure, maxWidth)
  }

  /** The first `j` tokens of the line fit within `maxWidth`. */
  ghost predicate FitsUpTo(line: seq<string>, j: int, measure: Measure, maxWidth: real)
    requires 0 <= j <= |line|
  {
    measure(Render(line[..j])) <= maxWidth
  }

  /** The break after line `k` was forced: that line would not have fit
      with the next line's first token added. */
  ghost predicate BreakForced(lines: seq<seq<string>>, k: int, measure: Measure, maxWidth: real)
    requires 0 <= k < |lines| - 1
  {
    lines[k + 1] != [] && measure(Render(lines[k] + [lines[k + 1][0]])) > maxWidth
  }

  /** No line is empty, every token joined to a line fit at the moment it
      joined, and every line break was forced. */
  ghost predicate WellBroken(lines: seq<seq<string>>, measure: Measure, maxWidth: real)
  {
    && (forall k :: 0 <= k < |lines| ==> lines[k] != [] && Accepted(lines[k], measure, maxWidth))
    && (forall k :: 0 <= k < |lines| - 1 ==> BreakForced(lines, k, measure, maxWidth))
  }

  /**
   * A greedy layout of `words`, described without the loop: the lines hold
   * the words in order and are well broken.
   */
  ghost predicate IsGreedy(words: seq<string>, lines: seq<seq<string>>, measure: Measure, maxWidth: real)
  {
    Flatten(lines) == words && WellBroken(lines, measure, maxWidth)
  }

  /** One unfolding of Layout for a last token `w` after a non-empty `ws`. */
  lemma LayoutSnoc(ws: seq<string>, w: string, measure: Measure, maxWidth: real)
    requires ws != []
    ensures var prev := Layout(ws, measure, maxWidth);
      var last := prev[|prev| - 1];
      Layout(ws + [w], measure, maxWidth)
        == if measure(Render(last + [w])) > maxWidth then prev + [[w]]
           else prev[..|prev| - 1] + [last + [w]]
  {
    assert (ws + [w])[..|ws|] == ws;
  }

  lemma FlattenSnoc(init: seq<seq<string>>, last: seq<string>)
    ensures Flatten(init + [last]) == Flatten(init) + last
  {
    FlattenConcat(init, [last]);
    assert Flatten([last]) == last + Flatten([]);
  }

  /** The lines before the last one of a well-broken layout are well broken. */
  lemma DropLast(init: seq<seq<string>>, last: seq<string>, measure: Measure, maxWidth: real)
    requires WellBroken(init + [last], measure, maxWidth)
    ensures WellBroken(init, measure, maxWidth)
  {
    var lines := init + [last];
    forall k | 0 <= k < |init|
      ensures init[k] != [] && Accepted(init[k], measure, maxWidth)
    {
      assert init[k] == lines[k];
    }
    forall k | 0 <= k < |init| - 1
      ensures BreakForced(init, k, measure, maxWidth)
    {
      assert BreakForced(lines, k, measure, maxWidth);
      assert init[k] == lines[k] && init[k + 1] == lines[k + 1];
    }
  }

  /** The last line may be swapped for another accepted line that starts
      with the same token. */
  lemma ReplaceLast(init: seq<seq<string>>, last: seq<string>, last': seq<string>, measure: Measure, maxWidth: real)
    requires WellBroken(init + [last], measure, maxWidth)
    requires last != [] && last' != [] && last'[0] == last[0] && Accepted(last', measure, maxWidth)
    ensures WellBroken(init + [last'], measure, maxWidth)
  {
    var lines, lines' := init + [last], init + [last'];
    forall k | 0 <= k < |lines'|
      ensures lines'[k] != [] && Accepted(lines'[k], measure, maxWidth)
    {
      if k < |init| {
        assert lines'[k] == lines[k];
      }
    }
    forall k | 0 <= k < |lines'| - 1
      ensures BreakForced(lines', k, measure, maxWidth)
    {
      assert BreakForced(lines, k, measure, maxWidth);
      assert lines'[k] == lines[k];
      assert lines'[k + 1][0] == lines[k + 1][0];
    }
  }

  /** Opening a new line with `w` when the break is forced keeps a layout greedy. */
  lemma GreedyBreak(ws: seq<string>, prev: seq<seq<string>>, w: string, measure: Measure, maxWidth: real)
    requires IsGreedy(ws, prev, measure, maxWidth) && prev != []
    requires measure(Render(prev[|prev| - 1] + [w])) > maxWidth
    ensures IsGreedy(ws + [w], prev + [[w]], measure, maxWidth)
  {
    var lines := prev + [[w]];
    FlattenSnoc(prev, [w]);
    assert Accepted([w], measure, maxWidth);
    forall k | 0 <= k < |lines|
      ensures lines[k] != [] && Accepted(lines[k], measure, maxWidth)
    {
      if k < |prev| {
        assert lines[k] == prev[k];
      }
    }
    forall k | 0 <= k < |lines| - 1
      ensures BreakForced(lines, k, measure, maxWidth)
    {
      if k < |prev| - 1 {
        assert BreakForced(prev, k, measure, maxWidth);
        assert lines[k] == prev[k] && lines[k + 1] == prev[k + 1];
      } else {
        assert lines[k] == prev[|prev| - 1] && lines[k + 1] == [w];
      }
    }
  }

  /** Adding `w` to the last line when it fits keeps a layout greedy. */
  lemma GreedyGrow(ws: seq<string>, prev: seq<seq<string>>, w: string, measure: Measure, maxWidth: real)
    requires IsGreedy(ws, prev, measure, maxWidth) && prev != []
    requires measure(Render(prev[|prev| - 1] + [w])) <= maxWidth
    ensures IsGreedy(ws + [w], prev[..|prev| - 1] + [prev[|prev| - 1] + [w]], measure, maxWidth)
  {
    var init, last := prev[..|prev| - 1], prev[|prev| - 1];
    var grown := last + [w];
    assert prev == init + [last];
    FlattenSnoc(init, last);
    FlattenSnoc(init, grown);
    assert Accepted(last, measure, maxWidth);
    assert Accepted(grown, measure, maxWidth) by {
      forall j | 2 <= j <= |grown|
        ensures FitsUpTo(grown, j, measure, maxWidth)
      {
        if j <= |last| {
          assert FitsUpTo(last, j, measure, maxWidth);
          assert grown[..j] == last[..j];
        } else {
          assert grown[..j] == grown;
        }
      }
    }
    ReplaceLast(init, last, grown, measure, maxWidth);
  }

  /** The loop's layout is greedy. */
  lemma {:induction false} LayoutIsGreedy(words: seq<string>, measure: Measure, maxWidth: real)
    ensures IsGreedy(words, Layout(words, measure, maxWidth), measure, maxWidth)
    decreases |words|
  {
    if words != [] {
      var ws, w := words[..|words| - 1], words[|words| - 1];
      assert words == ws + [w];
      if ws == [] {
        assert Layout(words, measure, maxWidth) == [[w]];
        FlattenSnoc([], [w]);
        assert Accepted([w], measure, maxWidth);
      } else {
        LayoutIsGreedy(ws, measure, maxWidth);
        LayoutSnoc(ws, w, measure, maxWidth);
        var prev := Layout(ws, measure, maxWidth);
        if measure(Render(prev[|prev| - 1] + [w])) > maxWidth {
          GreedyBreak(ws, prev, w, measure, maxWidth);
        } else {
          GreedyGrow(ws, prev, w, measure, maxWidth);
        }
      }
    }
  }

  /** Removing a last line made of `w` alone from a greedy layout. */
  lemma GreedyUnbreak(words: seq<string>, init: seq<seq<string>>, w: string, measure: Measure, maxWidth: real)
    requires init != [] && IsGreedy(words, init + [[w]], measure, maxWidth)
    ensures words != [] && words == words[..|words| - 1] + [w]
    ensures IsGreedy(words[..|words| - 1], init, measure, maxWidth)
    ensures measure(Render(init[|init| - 1] + [w])) > maxWidth
  {
    var lines := init + [[w]];
    FlattenSnoc(init, [w]);
    assert words[..|words| - 1] == Flatten(init);
    DropLast(init, [w], measure, maxWidth);
    assert BreakForced(lines, |init| - 1, measure, maxWidth);
    assert lines[|init| - 1] == init[|init| - 1];
  }

  /** A line that was accepted, cut before its last token, was accepted too,
      and when it has two tokens or more it fits. */
  lemma AcceptedShrink(line: seq<string>, measure: Measure, maxWidth: real)
    requires |line| >= 2 && Accepted(line, measure, maxWidth)
    ensures Accepted(line[..|line| - 1], measure, maxWidth)
    ensures measure(Render(line)) <= maxWidth
  {
    var shorter := line[..|line| - 1];
    forall j | 2 <= j <= |shorter|
      ensures FitsUpTo(shorter, j, measure, maxWidth)
    {
      assert FitsUpTo(line, j, measure, maxWidth);
      assert shorter[..j] == line[..j];
    }
    assert FitsUpTo(line, |line|, measure, maxWidth);
    assert line[..|line|] == line;
  }

  /** Removing the last token from a last line of two or more tokens. */
  lemma GreedyShrink(words: seq<string>, init: seq<seq<string>>, last: seq<string>, measure: Measure, maxWidth: real)
    requires |last| >= 2 && IsGreedy(words, init + [last], measure, maxWidth)
    ensures words != [] && words == words[..|words| - 1] + [last[|last| - 1]]
    ensures IsGreedy(words[..|words| - 1], init + [last[..|last| - 1]], measure, maxWidth)
  {
    var shorter, w := last[..|last| - 1], last[|last| - 1];
    var front := Flatten(init) + shorter;
    assert last == shorter + [w];
    FlattenSnoc(init, last);
    FlattenSnoc(init, shorter);
    assert words == front + [w];
    assert words[..|words| - 1] == front;
    assert (init + [last])[|init|] == last;
    AcceptedShrink(last, measure, maxWidth);
    ReplaceLast(init, last, shorter, measure, maxWidth);
  }

  /** The loop opens a new line for `w` when it does not fit on the last one. */
  lemma BreakIsLayout(ws: seq<string>, init: seq<seq<string>>, w: string, measure: Measure, maxWidth: real)
    requires init != [] && init == Layout(ws, measure, maxWidth)
    requires measure(Render(init[|init| - 1] + [w])) > maxWidth
    ensures init + [[w]] == Layout(ws + [w], measure, maxWidth)
  {
    LayoutSnoc(ws, w, measure, maxWidth);
  }

  /** The loop adds `w` to the last line when it fits there. */
  lemma GrowIsLayout(ws: seq<string>, init: seq<seq<string>>, last: seq<string>, measure: Measure, maxWidth: real)
    requires |last| >= 2 && Accepted(last, measure, maxWidth)
    requires init + [last[..|last| - 1]] == Layout(ws, measure, maxWidth)
    ensures init + [last] == Layout(ws + [last[|last| - 1]], measure, maxWidth)
  {
    var shorter, w := last[..|last| - 1], last[|last| - 1];
    AcceptedShrink(last, measure, maxWidth);
    assert shorter + [w] == last;
    LayoutSnoc(ws, w, measure, maxWidth);
    assert (init + [shorter])[..|init|] == init;
  }

  /** A greedy layout is the loop's layout: the description above pins the
      algorithm down completely. */
  lemma {:induction false} GreedyIsLayout(words: seq<string>, lines: seq<seq<string>>, measure: Measure, maxWidth: real)
    requires IsGreedy(words, lines, measure, maxWidth)
    ensures lines == Layout(words, measure, maxWidth)
    decreases |words|
  {
    if lines == [] {
      assert Flatten(lines) == [];
    } else {
      var init, last := lines[..|lines| - 1], lines[|lines| - 1];
      assert lines == init + [last];
      assert last != [];
      var ws, w := words[..|words| - 1], words[|words| - 1];
      if |last| == 1 {
        assert last == [last[0]];
        if init == [] {
          assert Flatten(lines) == last + Flatten([]);
          assert words == [w];
        } else {
          GreedyUnbreak(words, init, last[0], measure, maxWidth);
          GreedyIsLayout(ws, init, measure, maxWidth);
          BreakIsLayout(ws, init, w, measure, maxWidth);
        }
      } else {
        GreedyShrink(words, init, last, measure, maxWidth);
        GreedyIsLayout(ws, init + [last[..|last| - 1]], measure, maxWidth);
        GrowIsLayout(ws, init, last, measure, maxWidth);
      }
    }
  }

  /** No token is dropped, reordered or cut: the lines hold the words. */
  lemma LayoutKeepsWords(words: seq<string>, measure: Measure, maxWidth: real)
    ensures Flatten(Layout(words, measure, maxWidth)) == words
  {
    LayoutIsGreedy(words, measure, maxWidth);
  }

  /** Every line fits within `maxWidth` unless it is a single token. */
  lemma LinesFitOrSingle(words: seq<string>, measure: Measure, maxWidth: real, k: nat)
    requires k < |Layout(words, measure, maxWidth)|
    ensures var line := Layout(words, measure, maxWidth)[k];
      |line| == 1 || measure(Render(line)) <= maxWidth
  {
    LayoutIsGreedy(words, measure, maxWidth);
    var line := Layout(words, measure, maxWidth)[k];
    assert line != [] && Accepted(line, measure, maxWidth);
    if |line| >= 2 {
      assert FitsUpTo(line, |line|, measure, maxWidth);
      assert line[..|line|] == line;
    }
  }

  /** The first token opens the first line: it never causes a break. */
  lemma FirstTokenOpensFirstLine(words: seq<string>, measure: Measure, maxWidth: real)
    requires words != []
    ensures var lines := Layout(words, measure, maxWidth);
      |lines| >= 1 && lines[0] != [] && lines[0][0] == words[0]
  {
    LayoutIsGreedy(words, measure, maxWidth);
    var lines := Layout(words, measure, maxWidth);
    assert Flatten(lines) == lines[0] + Flatten(lines[1..]);
  }

  /** A line is added only by a break, so the line count never decreases. */
  lemma {:induction false} LayoutGrows(ws: seq<string>, w: string, measure: Measure, maxWidth: real)
    ensures |Layout(ws, measure, maxWidth)| <= |Layout(ws + [w], measure, maxWidth)|
  {
    assert (ws + [w])[..|ws|] == ws;
  }

  /** The lines `text` is drawn on: the greedy layout of `text.split(' ')`. */
  function WrapLines(text: string, measure: Measure, maxWidth: real): seq<seq<string>>
  {
    Layout(Split(text), measure, maxWidth)
  }

  /** The text of the layout of `text.split(' ')` is `text` plus one space. */
  lemma WrapKeepsText(text: string, measure: Measure, maxWidth: real)
    ensures RenderAll(WrapLines(text, measure, maxWidth)) == text + " "
  {
    SplitTokens(text);
    LayoutKeepsWords(Split(text), measure, maxWidth);
    RenderAllFlatten(Layout(Split(text), measure, maxWidth));
    RenderIsJoin(Split(text));
  }

  /** Two tokens or more that do not fit on one line together are drawn
      on two lines or more. */
  lemma BreaksWideWords(words: seq<string>, measure: Measure, maxWidth: real)
    requires |words| >= 2
    requires measure(Render(words)) > maxWidth
    ensures |Layout(words, measure, maxWidth)| >= 2
  {
    var ws, w := words[..|words| - 1], words[|words| - 1];
    assert words == ws + [w];
    var prev := Layout(ws, measure, maxWidth);
    LayoutGrows(ws, w, measure, maxWidth);
    if |prev| == 1 {
      LayoutKeepsWords(ws, measure, maxWidth);
      assert Flatten(prev) == prev[0] + Flatten([]);
      assert prev[0] + [w] == words;
      LayoutSnoc(ws, w, measure, maxWidth);
    }
  }

  /** With at least two tokens, a text whose full measure (trailing space
      included) exceeds `maxWidth` is drawn on at least two lines. */
  lemma WrapBreaksWideText(text: string, measure: Measure, maxWidth: real)
    requires ' ' in text
    requires measure(text + " ") > maxWidth
    ensures |WrapLines(text, measure, maxWidth)| >= 2
  {
    var words := Split(text);
    SplitTokens(text);
    assert |words| >= 2;
    RenderIsJoin(words);
    BreaksWideWords(words, measure, maxWidth);
  }

  /** The measure never shrinks when text is appended, as for a real font. */
  ghost predicate PrefixMonotone(measure: Measure)
  {
    forall s: string, t: string :: measure(s) <= measure(s + t)
  }

  lemma {:induction false} FitsOnOneLine(words: seq<string>, measure: Measure, maxWidth: real)
    requires words != []
    requires PrefixMonotone(measure)
    requires measure(Render(words)) <= maxWidth
    ensures Layout(words, measure, maxWidth) == [words]
    decreases |words|
  {
    var ws, w := words[..|words| - 1], words[|words| - 1];
    assert words == ws + [w];
    if ws != [] {
      RenderConcat(ws, [w]);
      assert measure(Render(ws)) <= measure(Render(ws) + Render([w]));
      FitsOnOneLine(ws, measure, maxWidth);
    }
  }

  /** For a monotone measure, a text whose full measure (trailing space
      included) is within `maxWidth` is drawn on exactly one line. */
  lemma WrapKeepsNarrowText(text: string, measure: Measure, maxWidth: real)
    requires PrefixMonotone(measure)
    requires measure(text + " ") <= maxWidth
    ensures |WrapLines(text, measure, maxWidth)| == 1
  {
    SplitTokens(text);
    RenderIsJoin(Split(text));
    FitsOnOneLine(Split(text), measure, maxWidth);
  }

  /** The top of the k-th line of text drawn from y, lines being 20 pixels
      apart. */
  function LineTop(y: real, k: nat): real
  {
    y + LineHeight * k as real
  }

  /** The calls that draw `lines` from (x, y) down, the k-th at LineTop(y, k). */
  function LinesOps(lines: seq<seq<string>>, x: real, y: real): seq<DrawOp>
  {
    if lines == [] then []
    else LinesOps(lines[..|lines| - 1], x, y) + [FillText(Render(lines[|lines| - 1]), x, LineTop(y, |lines| - 1))]
  }

  lemma LinesOpsSnoc(lines: seq<seq<string>>, line: seq<string>, x: real, y: real)
    ensures LinesOps(lines + [line], x, y) == LinesOps(lines, x, y) + [FillText(Render(line), x, LineTop(y, |lines|))]
  {
    assert (lines + [line])[..|lines|] == lines;
  }

  lemma {:induction false} LinesOpsAt(lines: seq<seq<string>>, x: real, y: real)
    ensures |LinesOps(lines, x, y)| == |lines|
    ensures forall k :: 0 <= k < |lines| ==> LinesOps(lines, x, y)[k] == FillText(Render(lines[k]), x, LineTop(y, k))
  {
    if lines != [] {
      var init := lines[..|lines| - 1];
      LinesOpsAt(init, x, y);
      assert forall k :: 0 <= k < |init| ==> lines[k] == init[k];
    }
  }

  /** The calls `drawWrappedText(ctx, text, x, y, maxWidth)` issues. */
  function WrapOps(text: string, x: real, y: real, maxWidth: real, measure: Measure): seq<DrawOp>
  {
    LinesOps(WrapLines(text, measure, maxWidth), x, y)
  }

  /** The texts of the fill calls in a trace, concatenated in order. */
  function Texts(ops: seq<DrawOp>): string
  {
    if ops == [] then ""
    else (if ops[0].FillText? then ops[0].text else "") + Texts(ops[1..])
  }

  lemma {:induction false} TextsConcat(a: seq<DrawOp>, b: seq<DrawOp>)
    ensures Texts(a + b) == Texts(a) + Texts(b)
  {
    if a == [] {
      assert a + b == b;
    } else {
      assert (a + b)[1..] == a[1..] + b;
      TextsConcat(a[1..], b);
    }
  }

  lemma {:induction false} RenderAllSnoc(lines: seq<seq<string>>, line: seq<string>)
    ensures RenderAll(lines + [line]) == RenderAll(lines) + Render(line)
  {
    if lines == [] {
      assert RenderAll([line]) == Render(line) + RenderAll([]);
    } else {
      assert (lines + [line])[1..] == lines[1..] + [line];
      RenderAllSnoc(lines[1..], line);
    }
  }

  lemma {:induction false} LinesOpsText(lines: seq<seq<string>>, x: real, y: real)
    ensures Texts(LinesOps(lines, x, y)) == RenderAll(lines)
  {
    if lines != [] {
      var init, last := lines[..|lines| - 1], lines[|lines| - 1];
      var op := FillText(Render(last), x, LineTop(y, |init|));
      LinesOpsText(init, x, y);
      TextsConcat(LinesOps(init, x, y), [op]);
      assert Texts([op]) == Render(last) + Texts([]);
      assert lines == init + [last];
      RenderAllSnoc(init, last);
    }
  }

  /**
   * What `drawWrappedText` draws: one fill call per line of the layout, at
   * least one; the k-th line's text at (x, y + 20 k); and the texts, read in
   * order, are the whole text followed by one space.
   */
  lemma WrapDrawsText(text: string, x: real, y: real, maxWidth: real, measure: Measure)
    ensures var ops, lines := WrapOps(text, x, y, maxWidth, measure), WrapLines(text, measure, maxWidth);
      && |ops| == |lines| >= 1
      && (forall k :: 0 <= k < |ops| ==> ops[k] == FillText(Render(lines[k]), x, y + LineHeight * k as real))
      && Texts(ops) == text + " "
  {
    LinesOpsAt(WrapLines(text, measure, maxWidth), x, y);
    LinesOpsText(WrapLines(text, measure, maxWidth), x, y);
    WrapKeepsText(text, measure, maxWidth);
  }
}
