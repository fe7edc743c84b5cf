/**
 * The multi-caption overlay of meme_generator.py (`add_meme_text`): for each
 * caption a font size clamped from the image width and text length, a wrap
 * width in characters, a greedy word wrap of the upper-cased text, a block
 * height, a start row chosen by the anchor, and per line eight outline draws
 * followed by one fill draw, each line centred on its own.
 *
 * Font metrics (`font.getbbox`), font-file availability and Pillow's colour
 * parser are parameters (`Env`); the canvas is the RGB copy of the input
 * together with the ordered log of text draws made onto it.
 */
module MemeGenerator {
  import opened Wrappers
  import opened PyText
  import opened Imaging

  /** What the overlay learns from its surroundings. */
  datatype Env = Env(
    arialLoads: bool,                  // ImageFont.truetype("arial.ttf", ...) succeeds
    bbox: (Font, string) -> Box,       // font.getbbox(line)
    colourOk: Colour -> bool)          // Pillow accepts the colour (otherwise ValueError)

  function Min(a: int, b: int): int { if a <= b then a else b }
  function Max(a: int, b: int): int { if a >= b then a else b }

  /** `int(a / d)` for a positive integer `d`: Python's `int()` of a quotient truncates toward zero. */
  function TruncDiv(a: int, d: int): int
    requires d > 0
  {
    if a >= 0 then a / d else -((-a) / d)
  }

  /** The truncated quotient rounds toward zero: down for a non-negative dividend, up for a negative one. */
  lemma TruncDivRounds(a: int, d: int)
    requires d > 0
    ensures a >= 0 ==> TruncDiv(a, d) * d <= a < TruncDiv(a, d) * d + d
    ensures a < 0 ==> TruncDiv(a, d) * d - d < a <= TruncDiv(a, d) * d
  {
    if a >= 0 {
      assert a / d * d <= a < a / d * d + d;
    } else {
      assert (-a) / d * d <= -a < (-a) / d * d + d;
    }
  }

  /** Truncating division by 12 (the font-size rule's divisor) is monotone. */
  lemma TruncDiv12Monotone(a: int, b: int)
    requires a <= b
    ensures TruncDiv(a, 12) <= TruncDiv(b, 12)
  {
    if a < 0 && b >= 0 {
      assert TruncDiv(a, 12) <= 0 <= TruncDiv(b, 12);
    }
  }

  // ---------------------------------------------------------------------------
  // Font size and wrap width
  // ---------------------------------------------------------------------------

  /**
   * `min(80, max(30, int(img.width/12 - len(text)/3)))`, with the length taken
   * before upper-casing. `w/12 - n/3` is `(w - 4n)/12` exactly.
   */
  function BaseSize(width: nat, textLen: nat): (s: int)
    ensures 30 <= s <= 80
    ensures TruncDiv(width - 4 * textLen, 12) <= 30 ==> s == 30
    ensures TruncDiv(width - 4 * textLen, 12) >= 80 ==> s == 80
    ensures 30 < TruncDiv(width - 4 * textLen, 12) < 80 ==> s == TruncDiv(width - 4 * textLen, 12)
  {
    Min(80, Max(30, TruncDiv(width - 4 * textLen, 12)))
  }

  /** A longer caption never gets a larger font. */
  lemma BaseSizeShrinks(width: nat, n1: nat, n2: nat)
    requires n1 <= n2
    ensures BaseSize(width, n2) <= BaseSize(width, n1)
  {
    TruncDiv12Monotone(width - 4 * n2, width - 4 * n1);
  }

  /** A wider image never gets a smaller font. */
  lemma BaseSizeGrows(w1: nat, w2: nat, n: nat)
    requires w1 <= w2
    ensures BaseSize(w1, n) <= BaseSize(w2, n)
  {
    TruncDiv12Monotone(w1 - 4 * n, w2 - 4 * n);
  }

  /** The size never exceeds a twelfth of the width unless it sits at the lower clamp. */
  lemma BaseSizeBelowWidth(width: nat, n: nat)
    ensures BaseSize(width, n) == 30 || 12 * BaseSize(width, n) <= width
  {
  }

  lemma QuotientAtLeastOne(a: int, b: int)
    requires 0 < b <= a
    ensures a / b >= 1
  {
  }

  /** `truetype("arial.ttf", size)`, falling back to `load_default(size=size)`. */
  function CaptionFont(size: nat, arialLoads: bool): (f: Font)
    ensures f.size == Some(size)
    ensures f.face == (if arialLoads then TrueType("arial.ttf") else BuiltIn)
  {
    if arialLoads then Font(TrueType("arial.ttf"), Some(size)) else Font(BuiltIn, Some(size))
  }

  /**
   * `min(20, int((w * 0.9) / (size * 0.6)))`; exactly `(9w/10) / (6 size/10)`,
   * that is `3w / (2 size)` rounded down (both operands are non-negative).
   */
  function WrapWidth(width: nat, size: int): (ww: int)
    requires size >= 30
    ensures 0 <= ww <= 20
  {
    assert (3 * width) / (2 * size) >= 0;
    Min(20, (3 * width) / (2 * size))
  }

  /** Below the cap of 20, the wrap width is the number of whole `0.6 * size` character cells in `0.9 * width`. */
  lemma WrapWidthCells(width: nat, size: int)
    requires size >= 30
    ensures WrapWidth(width, size) < 20 ==>
      WrapWidth(width, size) * 2 * size <= 3 * width < (WrapWidth(width, size) + 1) * 2 * size
  {
  }

  /** The wrap width reaches the cap of 20 exactly when at least 20 cells of `0.6 * size` fit in `0.9 * width`. */
  lemma WrapWidthCap(width: nat, size: int)
    requires size >= 30
    ensures WrapWidth(width, size) == 20 <==> 40 * size <= 3 * width
  {
    var d := 2 * size;
    var q := (3 * width) / d;
    DivBounds(3 * width, d);
    if q >= 20 {
      MulMonotone(20, q, d);
    } else {
      MulMonotone(q + 1, 20, d);
    }
  }

  lemma DivBounds(a: nat, d: int)
    requires d > 0
    ensures (a / d) * d <= a < (a / d) * d + d
  {
  }

  lemma MulMonotone(a: int, b: int, c: nat)
    requires a <= b
    ensures a * c <= b * c
  {
  }

  /** The wrap width is positive exactly when the image is at least 20 pixels wide, whatever the caption. */
  lemma WrapWidthPositive(width: nat, n: nat)
    ensures WrapWidth(width, BaseSize(width, n)) >= 1 <==> width >= 20
  {
    var s := BaseSize(width, n);
    if width < 20 {
      assert TruncDiv(width - 4 * n, 12) <= 1;
      assert s == 30;
    } else if s > 30 {
      assert 12 * s <= width;
      QuotientAtLeastOne(3 * width, 2 * s);
    }
  }

  // ---------------------------------------------------------------------------
  // Captions and their layout
  // ---------------------------------------------------------------------------

  /** One element of `zip(texts, positions, colors, outline_colors)`. */
  datatype Caption = Caption(text: string, position: string, colour: Colour, outline: Colour)

  /** `zip` of the four argument lists: as many captions as the shortest list, element by element. */
  function Captions(texts: seq<string>, positions: seq<string>, colors: seq<Colour>, outlines: seq<Colour>): (cs: seq<Caption>)
    ensures |cs| == Min(Min(|texts|, |positions|), Min(|colors|, |outlines|))
    ensures forall i :: 0 <= i < |cs| ==>
      cs[i] == Caption(texts[i], positions[i], colors[i], outlines[i])
  {
    var n := Min(Min(|texts|, |positions|), Min(|colors|, |outlines|));
    seq(n, i requires 0 <= i < n => Caption(texts[i], positions[i], colors[i], outlines[i]))
  }

  function LineWidth(env: Env, font: Font, line: string): int {
    env.bbox(font, line).right - env.bbox(font, line).left
  }

  function LineHeight(env: Env, font: Font, line: string): int {
    env.bbox(font, line).bottom - env.bbox(font, line).top
  }

  /** The vertical step after each line: its height plus 10 pixels of spacing. */
  const LineSpacing: int := 10

  /** `(img.width - text_width) // 2`: the line's left edge, centred within one pixel. */
  function LineX(width: nat, env: Env, font: Font, line: string): (x: int)
    ensures width - 1 <= 2 * x + LineWidth(env, font, line) <= width
  {
    (width - LineWidth(env, font, line)) / 2
  }

  /** Sum of `height + 10` over the first `n` lines. */
  function HeightSum(env: Env, font: Font, lines: seq<string>, n: nat): int
    requires n <= |lines|
  {
    if n == 0 then 0
    else HeightSum(env, font, lines, n - 1) + LineHeight(env, font, lines[n - 1]) + LineSpacing
  }

  /** `total_height`. */
  function TotalHeight(env: Env, font: Font, lines: seq<string>): int {
    HeightSum(env, font, lines, |lines|)
  }

  lemma {:induction false} HeightSumBounds(env: Env, font: Font, lines: seq<string>, n: nat)
    requires n <= |lines|
    requires forall i :: 0 <= i < |lines| ==> LineHeight(env, font, lines[i]) >= 0
    ensures HeightSum(env, font, lines, n) >= LineSpacing * n
  {
    if n > 0 {
      HeightSumBounds(env, font, lines, n - 1);
    }
  }

  /** `int(img.height * 0.05)`. */
  function Margin(height: nat): int { height / 20 }

  /** The margin is the whole number of pixels in 5% of the height, rounded down. */
  lemma MarginRoundsDown(height: nat)
    ensures 0 <= 20 * Margin(height) <= height < 20 * Margin(height) + 20
  {
  }

  /** The row of the first line for a block of the given height. */
  function StartY(position: string, height: nat, total: int): real {
    if position == "Top" then (height as real) * 0.05
    else if position == "Bottom" then (height - total - Margin(height)) as real
    else ((height - total) / 2) as real
  }

  /**
   * What each anchor means: "Top" starts 5% of the height down; "Bottom" ends
   * the block exactly one (integer) margin above the bottom edge; anything else
   * centres the block, the space above and below differing by at most a pixel.
   */
  lemma StartYByAnchor(position: string, height: nat, total: int)
    ensures position == "Top" ==> 20.0 * StartY(position, height, total) == height as real
    ensures position == "Bottom" ==> StartY(position, height, total) + total as real == (height - Margin(height)) as real
    ensures position != "Top" && position != "Bottom" ==>
      var above := StartY(position, height, total);
      var below := (height - total) as real - above;
      above <= below <= above + 1.0
    ensures position != "Top" && position != "Bottom" ==>
      StartY(position, height, total).Floor as real == StartY(position, height, total)
  {
  }

  /** A bottom-anchored block stays on the canvas whenever it fits above the margin. */
  lemma BottomWithinCanvas(height: nat, total: int)
    requires 0 <= total <= height - Margin(height)
    ensures 0.0 <= StartY("Bottom", height, total)
    ensures StartY("Bottom", height, total) + total as real <= height as real
  {
  }

  /** The three things a caption's layout fixes before drawing. */
  datatype Layout = Layout(font: Font, lines: seq<string>, startY: real)

  /** The wrapped lines of a caption (`textwrap.wrap(text.upper(), width=wrap_width)`). */
  function CaptionLines(width: nat, c: Caption): (r: Result<seq<string>>)
    ensures r.Raise? <==> width < 20
    ensures r.Ok? ==> forall i :: 0 <= i < |r.value| ==> |r.value[i]| <= 20
  {
    var size := BaseSize(width, |c.text|);
    var ww := WrapWidth(width, size);
    WrapWidthPositive(width, |c.text|);
    if ww >= 1 then WrapLineBound(Upper(c.text), ww); Wrap(Upper(c.text), ww)
    else Wrap(Upper(c.text), ww)
  }

  /** Font, lines and start row of one caption; depends on nothing but the caption, the image size and the environment. */
  function CaptionLayout(width: nat, height: nat, c: Caption, env: Env): (r: Result<Layout>)
    ensures r.Raise? <==> width < 20
    ensures r.Ok? ==> r.value.lines == CaptionLines(width, c).value
  {
    var font := CaptionFont(BaseSize(width, |c.text|), env.arialLoads);
    match CaptionLines(width, c)
    case Raise(e) => Raise(e)
    case Ok(lines) => Ok(Layout(font, lines, StartY(c.position, height, TotalHeight(env, font, lines))))
  }

  /** Each caption line is at most `wrap_width` characters, hence at most 20. */
  lemma CaptionLineBound(width: nat, c: Caption)
    requires width >= 20
    ensures CaptionLines(width, c).Ok?
    ensures forall i :: 0 <= i < |CaptionLines(width, c).value| ==>
      |CaptionLines(width, c).value[i]| <= WrapWidth(width, BaseSize(width, |c.text|))
  {
    WrapWidthPositive(width, |c.text|);
    WrapLineBound(Upper(c.text), WrapWidth(width, BaseSize(width, |c.text|)));
  }

  /** A caption made only of whitespace has no lines (when the image is wide enough for wrapping not to raise). */
  lemma BlankCaptionHasNoLines(width: nat, c: Caption)
    requires width >= 20
    requires forall i :: 0 <= i < |c.text| ==> IsWrapSpace(c.text[i])
    ensures CaptionLines(width, c) == Ok([])
  {
    WrapWidthPositive(width, |c.text|);
    UpperKeepsWrapSpace(c.text);
    WrapBlank(Upper(c.text), WrapWidth(width, BaseSize(width, |c.text|)));
  }

  // ---------------------------------------------------------------------------
  // The outline halo and the draws of one line
  // ---------------------------------------------------------------------------

  /** The values `dx` and `dy` run over. */
  const Offsets: seq<int> := [-2, 0, 2]

  /** The offsets the inner `for dy` loop emits for `dx = Offsets[a]` after `b` steps (skipping (0, 0)). */
  function RowOffsets(a: nat, b: nat): seq<(int, int)>
    requires a < 3 && b <= 3
  {
    if b == 0 then []
    else
      RowOffsets(a, b - 1)
      + (if Offsets[a] != 0 || Offsets[b - 1] != 0 then [(Offsets[a], Offsets[b - 1])] else [])
  }

  /** The offsets the two loops emit after `a` complete rows. */
  function HaloUpTo(a: nat): seq<(int, int)>
    requires a <= 3
  {
    if a == 0 then [] else HaloUpTo(a - 1) + RowOffsets(a - 1, 3)
  }

  /** The halo: the eight neighbours at distance 2, in the order the two loops visit them. */
  const Halo: seq<(int, int)> := [(-2, -2), (-2, 0), (-2, 2), (0, -2), (0, 2), (2, -2), (2, 0), (2, 2)]

  /** The two nested loops over `[-2, 0, 2]`, skipping (0, 0), visit exactly the halo, in row-major order. */
  lemma HaloLoops()
    ensures HaloUpTo(3) == Halo
  {
    assert RowOffsets(0, 3) == [(-2, -2), (-2, 0), (-2, 2)];
    assert RowOffsets(1, 3) == [(0, -2), (0, 2)];
    assert RowOffsets(2, 3) == [(2, -2), (2, 0), (2, 2)];
    assert HaloUpTo(2) == [(-2, -2), (-2, 0), (-2, 2), (0, -2), (0, 2)];
  }

  /** Every offset pair except (0, 0) is in the halo, and each occurs once. */
  lemma HaloShape()
    ensures forall p :: p in Halo <==> p.0 in Offsets && p.1 in Offsets && p != (0, 0)
    ensures forall i, j :: 0 <= i < j < |Halo| ==> Halo[i] != Halo[j]
  {
  }

  /** The outline draws for the given offsets around (x, y). */
  function OutlineDraws(offsets: seq<(int, int)>, x: int, y: real, line: string, font: Font, outline: Colour): (ds: seq<Draw>)
    ensures |ds| == |offsets|
  {
    seq(|offsets|, k requires 0 <= k < |offsets| =>
      Text(x + offsets[k].0, y + offsets[k].1 as real, line, font, outline))
  }

  /** Everything drawn for one line: the halo in the outline colour, then the line itself in the fill colour. */
  function LineDraws(x: int, y: real, line: string, font: Font, fill: Colour, outline: Colour): (ds: seq<Draw>)
  {
    OutlineDraws(Halo, x, y, line, font, outline) + [Text(x, y, line, font, fill)]
  }

  /** Nine draws per line: eight outline draws at the halo offsets, then the fill at exactly (x, y). */
  lemma LineDrawsShape(x: int, y: real, line: string, font: Font, fill: Colour, outline: Colour)
    ensures |LineDraws(x, y, line, font, fill, outline)| == 9
    ensures LineDraws(x, y, line, font, fill, outline)[8] == Text(x, y, line, font, fill)
    ensures forall k :: 0 <= k < 8 ==>
      LineDraws(x, y, line, font, fill, outline)[k]
        == Text(x + Halo[k].0, y + Halo[k].1 as real, line, font, outline)
  {
  }

  // ---------------------------------------------------------------------------
  // The draws of one caption and of all captions
  // ---------------------------------------------------------------------------

  /** Row of line `k`: the start row plus the steps of the lines above it. */
  function LineY(env: Env, L: Layout, k: nat): real
    requires k <= |L.lines|
  {
    L.startY + HeightSum(env, L.font, L.lines, k) as real
  }

  /** The draws for the first `n` lines of a caption, in order. */
  function BlockDraws(width: nat, env: Env, L: Layout, c: Caption, n: nat): seq<Draw>
    requires n <= |L.lines|
  {
    if n == 0 then []
    else
      BlockDraws(width, env, L, c, n - 1)
      + LineDraws(LineX(width, env, L.font, L.lines[n - 1]), LineY(env, L, n - 1),
                  L.lines[n - 1], L.font, c.colour, c.outline)
  }

  /**
   * Draw `9k + j` of a caption's block belongs to line `k`: for j < 8 it is the
   * outline at halo offset j around that line's position, for j = 8 the fill at
   * the position itself. Each line's x depends on that line only.
   */
  lemma {:induction false} BlockDrawsAt(width: nat, env: Env, L: Layout, c: Caption, n: nat)
    requires n <= |L.lines|
    ensures |BlockDraws(width, env, L, c, n)| == 9 * n
    ensures forall k, j :: 0 <= k < n && 0 <= j < 9 ==>
      BlockDraws(width, env, L, c, n)[9 * k + j]
        == LineDraws(LineX(width, env, L.font, L.lines[k]), LineY(env, L, k), L.lines[k], L.font, c.colour, c.outline)[j]
  {
    if n > 0 {
      BlockDrawsAt(width, env, L, c, n - 1);
      LineDrawsShape(LineX(width, env, L.font, L.lines[n - 1]), LineY(env, L, n - 1),
                     L.lines[n - 1], L.font, c.colour, c.outline);
      var prev := BlockDraws(width, env, L, c, n - 1);
      var last := LineDraws(LineX(width, env, L.font, L.lines[n - 1]), LineY(env, L, n - 1),
                            L.lines[n - 1], L.font, c.colour, c.outline);
      assert BlockDraws(width, env, L, c, n) == prev + last;
      forall k, j | 0 <= k < n && 0 <= j < 9
        ensures (prev + last)[9 * k + j]
          == LineDraws(LineX(width, env, L.font, L.lines[k]), LineY(env, L, k), L.lines[k], L.font, c.colour, c.outline)[j]
      {
        if k < n - 1 {
          assert 9 * k + j < 9 * (n - 1);
        } else {
          assert 9 * k + j == 9 * (n - 1) + j;
        }
      }
    }
  }

  /** Each line starts where the previous one's step ends; after the last line the accumulator is start + total_height. */
  lemma LineYSteps(env: Env, L: Layout, k: nat)
    requires k < |L.lines|
    ensures LineY(env, L, k + 1) == LineY(env, L, k) + (LineHeight(env, L.font, L.lines[k]) + LineSpacing) as real
    ensures LineY(env, L, |L.lines|) == L.startY + TotalHeight(env, L.font, L.lines) as real
  {
  }

  /** For a bottom-anchored caption the accumulator ends exactly at `height - int(0.05 * height)`. */
  lemma BottomEndsAtMargin(width: nat, height: nat, c: Caption, env: Env)
    requires c.position == "Bottom"
    requires CaptionLayout(width, height, c, env).Ok?
    ensures var L := CaptionLayout(width, height, c, env).value;
            LineY(env, L, |L.lines|) == (height - Margin(height)) as real
  {
    var L := CaptionLayout(width, height, c, env).value;
    StartYByAnchor(c.position, height, TotalHeight(env, L.font, L.lines));
  }

  /** Pillow parses both colours of the caption. */
  predicate ColoursOk(env: Env, c: Caption) {
    env.colourOk(c.outline) && env.colourOk(c.colour)
  }

  /**
   * The draws of one caption, or the exception that aborts the overlay: wrap
   * raises ValueError for a non-positive width, and so does the first draw
   * with a colour Pillow cannot parse (no draw happens when there is no line).
   */
  function CaptionDraws(width: nat, height: nat, c: Caption, env: Env): (r: Result<seq<Draw>>)
  {
    match CaptionLayout(width, height, c, env)
    case Raise(e) => Raise(e)
    case Ok(L) =>
      if L.lines != [] && !ColoursOk(env, c) then Raise(ValueError)
      else Ok(BlockDraws(width, env, L, c, |L.lines|))
  }

  /** A caption fails exactly when the image is too narrow to wrap, or when it has a line to draw with a colour Pillow rejects. */
  lemma CaptionDrawsRaises(width: nat, height: nat, c: Caption, env: Env)
    ensures CaptionDraws(width, height, c, env).Raise? <==>
      width < 20 || (CaptionLines(width, c).value != [] && !ColoursOk(env, c))
    ensures CaptionDraws(width, height, c, env).Ok? ==>
      |CaptionDraws(width, height, c, env).value| == 9 * |CaptionLines(width, c).value|
  {
    var r := CaptionLayout(width, height, c, env);
    if r.Ok? {
      BlockDrawsAt(width, env, r.value, c, |r.value.lines|);
    }
  }

  /**
   * The caption loop's exception behaviour: the draws of the first `n`
   * results in order, or the first exception among them.
   */
  function Sequence(rs: seq<Result<seq<Draw>>>, n: nat): Result<seq<Draw>>
    requires n <= |rs|
  {
    if n == 0 then Ok([])
    else
      match Sequence(rs, n - 1)
      case Raise(e) => Raise(e)
      case Ok(log) =>
        match rs[n - 1]
        case Raise(e) => Raise(e)
        case Ok(ds) => Ok(log + ds)
  }

  /** The loop aborts exactly when one of the first `n` results is an exception. */
  lemma {:induction false} SequenceRaisesIff(rs: seq<Result<seq<Draw>>>, n: nat)
    requires n <= |rs|
    ensures Sequence(rs, n).Raise? <==> exists k :: 0 <= k < n && rs[k].Raise?
  {
    if n > 0 {
      SequenceRaisesIff(rs, n - 1);
    }
  }

  /** Without exceptions the log is the results concatenated in list order. */
  lemma {:induction false} SequenceInOrder(rs: seq<Result<seq<Draw>>>, n: nat)
    requires n <= |rs|
    requires forall k :: 0 <= k < n ==> rs[k].Ok?
    ensures Sequence(rs, n) == Ok(Join(seq(n, k requires 0 <= k < n && rs[k].Ok? => rs[k].value)))
  {
    if n > 0 {
      SequenceInOrder(rs, n - 1);
      var parts := seq(n, k requires 0 <= k < n && rs[k].Ok? => rs[k].value);
      var initParts := seq(n - 1, k requires 0 <= k < n - 1 && rs[k].Ok? => rs[k].value);
      assert parts == initParts + [rs[n - 1].value];
      JoinAppend(initParts, [rs[n - 1].value]);
      JoinSingle(rs[n - 1].value);
    }
  }

  /** One more result without an exception extends the log. */
  lemma SequenceStep(rs: seq<Result<seq<Draw>>>, n: nat, log: seq<Draw>, ds: seq<Draw>)
    requires n < |rs|
    requires Sequence(rs, n) == Ok(log) && rs[n] == Ok(ds)
    ensures Sequence(rs, n + 1) == Ok(log + ds)
  {
  }

  /** An exception at position `n` aborts the whole loop. */
  lemma SequenceAbortsAt(rs: seq<Result<seq<Draw>>>, n: nat)
    requires n < |rs|
    requires Sequence(rs, n).Ok? && rs[n].Raise?
    ensures Sequence(rs, |rs|).Raise?
  {
    SequencePrefixRaises(rs, n + 1, |rs|);
  }

  /** Once the first `n` results abort, so do the first `m >= n`. */
  lemma {:induction false} SequencePrefixRaises(rs: seq<Result<seq<Draw>>>, n: nat, m: nat)
    requires n <= m <= |rs|
    requires Sequence(rs, n).Raise?
    ensures Sequence(rs, m).Raise?
    decreases m - n
  {
    if n < m {
      SequencePrefixRaises(rs, n + 1, m);
    }
  }

  /** Each caption's draws, computed from that caption alone. */
  function AllCaptionDraws(width: nat, height: nat, cs: seq<Caption>, env: Env): (rs: seq<Result<seq<Draw>>>)
    ensures |rs| == |cs|
  {
    seq(|cs|, k requires 0 <= k < |cs| => CaptionDraws(width, height, cs[k], env))
  }

  /** The overlay's result: the RGB copy of the input plus the ordered text draws made onto it. */
  datatype Canvas = Canvas(base: Image, log: seq<Draw>)

  /** `add_meme_text(img, texts, positions, colors, outline_colors)`; None is the catch-all's return. */
  function MemeText(img: Image, texts: seq<string>, positions: seq<string>, colors: seq<Colour>,
                    outlines: seq<Colour>, env: Env): Option<Canvas>
  {
    var base := ToRgb(img);
    var cs := Captions(texts, positions, colors, outlines);
    match Sequence(AllCaptionDraws(base.width, base.height, cs, env), |cs|)
    case Raise(_) => None
    case Ok(log) => Some(Canvas(base, log))
  }

  lemma MemeTextAborts(img: Image, texts: seq<string>, positions: seq<string>, colors: seq<Colour>,
                       outlines: seq<Colour>, env: Env, rs: seq<Result<seq<Draw>>>)
    requires rs == AllCaptionDraws(ToRgb(img).width, ToRgb(img).height, Captions(texts, positions, colors, outlines), env)
    requires Sequence(rs, |rs|).Raise?
    ensures MemeText(img, texts, positions, colors, outlines, env) == None
  {
  }

  lemma MemeTextDraws(img: Image, texts: seq<string>, positions: seq<string>, colors: seq<Colour>,
                      outlines: seq<Colour>, env: Env, rs: seq<Result<seq<Draw>>>, log: seq<Draw>)
    requires rs == AllCaptionDraws(ToRgb(img).width, ToRgb(img).height, Captions(texts, positions, colors, outlines), env)
    requires Sequence(rs, |rs|) == Ok(log)
    ensures MemeText(img, texts, positions, colors, outlines, env) == Some(Canvas(ToRgb(img), log))
  {
  }

  /**
   * The overlay returns None exactly when some rendered caption hits an
   * exception: the image is under 20 pixels wide (the wrap width is then 0),
   * or the caption has a line and one of its colours is rejected.
   */
  lemma MemeTextNoneIff(img: Image, texts: seq<string>, positions: seq<string>, colors: seq<Colour>,
                        outlines: seq<Colour>, env: Env)
    ensures var cs := Captions(texts, positions, colors, outlines);
            MemeText(img, texts, positions, colors, outlines, env).None? <==>
              exists k :: 0 <= k < |cs| &&
                (img.width < 20 || (CaptionLines(img.width, cs[k]).value != [] && !ColoursOk(env, cs[k])))
  {
    var base := ToRgb(img);
    var cs := Captions(texts, positions, colors, outlines);
    var rs := AllCaptionDraws(base.width, base.height, cs, env);
    SequenceRaisesIff(rs, |cs|);
    forall k | 0 <= k < |cs|
      ensures rs[k].Raise? <==>
        (img.width < 20 || (CaptionLines(img.width, cs[k]).value != [] && !ColoursOk(env, cs[k])))
    {
      CaptionDrawsRaises(base.width, base.height, cs[k], env);
    }
  }

  /** Every character of the caption is textwrap whitespace. */
  predicate BlankCaption(c: Caption) {
    forall i :: 0 <= i < |c.text| ==> IsWrapSpace(c.text[i])
  }

  lemma BlankCaptionDrawsNothing(width: nat, height: nat, c: Caption, env: Env)
    requires width >= 20 && BlankCaption(c)
    ensures CaptionDraws(width, height, c, env) == Ok([])
  {
    BlankCaptionHasNoLines(width, c);
  }

  /** Blank captions on an image at least 20 pixels wide draw nothing. */
  lemma {:induction false} BlankCaptionsDrawNothing(rs: seq<Result<seq<Draw>>>, n: nat)
    requires n <= |rs|
    requires forall k :: 0 <= k < |rs| ==> rs[k] == Ok([])
    ensures Sequence(rs, n) == Ok([])
  {
    if n > 0 {
      BlankCaptionsDrawNothing(rs, n - 1);
      assert Sequence(rs, n) == Ok(Sequence(rs, n - 1).value + rs[n - 1].value);
      assert Sequence(rs, n - 1).value + rs[n - 1].value == [];
    }
  }

  /** When every zipped caption is blank the result is the RGB-converted input with nothing drawn on it. */
  lemma BlankMemeIsConvertedInput(img: Image, texts: seq<string>, positions: seq<string>, colors: seq<Colour>,
                                  outlines: seq<Colour>, env: Env)
    requires img.width >= 20
    requires forall k :: 0 <= k < |Captions(texts, positions, colors, outlines)| ==>
      BlankCaption(Captions(texts, positions, colors, outlines)[k])
    ensures MemeText(img, texts, positions, colors, outlines, env) == Some(Canvas(ToRgb(img), []))
  {
    var cs := Captions(texts, positions, colors, outlines);
    var rs := AllCaptionDraws(img.width, img.height, cs, env);
    forall k | 0 <= k < |rs|
      ensures rs[k] == Ok([])
    {
      BlankCaptionDrawsNothing(img.width, img.height, cs[k], env);
    }
    BlankCaptionsDrawNothing(rs, |cs|);
  }

  // ---------------------------------------------------------------------------
  // The imperative overlay
  // ---------------------------------------------------------------------------

  lemma OutlineDrawsSnoc(offsets: seq<(int, int)>, p: (int, int), x: int, y: real, line: string, font: Font, outline: Colour)
    ensures OutlineDraws(offsets + [p], x, y, line, font, outline)
      == OutlineDraws(offsets, x, y, line, font, outline) + [Text(x + p.0, y + p.1 as real, line, font, outline)]
  {
  }

  /** Outline draws for two runs of offsets are the draws of each, in order. */
  lemma OutlineDrawsAppend(p: seq<(int, int)>, q: seq<(int, int)>, x: int, y: real, line: string, font: Font, outline: Colour)
    ensures OutlineDraws(p + q, x, y, line, font, outline)
      == OutlineDraws(p, x, y, line, font, outline) + OutlineDraws(q, x, y, line, font, outline)
  {
    var l := OutlineDraws(p + q, x, y, line, font, outline);
    var r := OutlineDraws(p, x, y, line, font, outline) + OutlineDraws(q, x, y, line, font, outline);
    forall k | 0 <= k < |l|
      ensures l[k] == r[k]
    {
      if k >= |p| {
        assert (p + q)[k] == q[k - |p|];
      }
    }
  }

  /** Every row of the halo has an offset: only the middle row skips one, (0, 0). */
  lemma RowHasOffsets(a: nat)
    requires a < 3
    ensures RowOffsets(a, 3) != []
  {
    assert RowOffsets(a, 2) == RowOffsets(a, 1) + (if Offsets[a] != 0 then [(Offsets[a], 0)] else []);
  }

  /**
   * The inner `for dy` loop for `dx = Offsets[a]`: one outline draw per offset
   * except (0, 0). `ok` is false when Pillow rejects the outline colour.
   */
  method DrawHaloRow(a: nat, x: int, y: real, line: string, font: Font, outline: Colour, env: Env)
    returns (ok: bool, ops: seq<Draw>)
    requires a < 3
    ensures ok <==> env.colourOk(outline)
    ensures ok ==> ops == OutlineDraws(RowOffsets(a, 3), x, y, line, font, outline)
  {
    ops := [];
    ghost var done: seq<(int, int)> := [];
    for b := 0 to 3
      invariant done == RowOffsets(a, b)
      invariant env.colourOk(outline) || done == []
      invariant ops == OutlineDraws(done, x, y, line, font, outline)
    {
      var dx, dy := Offsets[a], Offsets[b];
      if dx != 0 || dy != 0 {
        if !env.colourOk(outline) {
          return false, ops;
        }
        OutlineDrawsSnoc(done, (dx, dy), x, y, line, font, outline);
        ops := ops + [Text(x + dx, y + dy as real, line, font, outline)];
        done := done + [(dx, dy)];
      }
    }
    RowHasOffsets(a);
    ok := true;
  }

  /**
   * The `for dx` loop around the rows of the halo, then the fill draw, for one
   * line. `ok` is false when Pillow would raise on a colour; `ops` is then
   * what was drawn before the exception.
   */
  method DrawLine(x: int, y: real, line: string, font: Font, fill: Colour, outline: Colour, env: Env)
    returns (ok: bool, ops: seq<Draw>)
    ensures ok <==> env.colourOk(outline) && env.colourOk(fill)
    ensures ok ==> ops == LineDraws(x, y, line, font, fill, outline)
  {
    ops := [];
    for a := 0 to 3
      invariant env.colourOk(outline) || a == 0
      invariant ops == OutlineDraws(HaloUpTo(a), x, y, line, font, outline)
    {
      var rowOk, rowOps := DrawHaloRow(a, x, y, line, font, outline, env);
      if !rowOk {
        return false, ops;
      }
      OutlineDrawsAppend(HaloUpTo(a), RowOffsets(a, 3), x, y, line, font, outline);
      ops := ops + rowOps;
    }
    HaloLoops();
    if !env.colourOk(fill) {
      return false, ops;
    }
    ops := ops + [Text(x, y, line, font, fill)];
    ok := true;
  }

  /**
   * The line loop of one caption: each line centred on its own, drawn at the
   * accumulated row `y`, which then advances by the line's height plus 10.
   * `ok` is false when Pillow rejects a colour at the first draw.
   */
  method DrawBlock(width: nat, env: Env, L: Layout, c: Caption) returns (ok: bool, ops: seq<Draw>)
    ensures ok <==> L.lines == [] || ColoursOk(env, c)
    ensures ok ==> ops == BlockDraws(width, env, L, c, |L.lines|)
  {
    ops := [];
    var y := L.startY;
    for j := 0 to |L.lines|
      invariant ops == BlockDraws(width, env, L, c, j)
      invariant y == LineY(env, L, j)
      invariant j > 0 ==> ColoursOk(env, c)
    {
      var line := L.lines[j];
      var box := env.bbox(L.font, line);
      var x := (width - (box.right - box.left)) / 2;
      var drawn, lineOps := DrawLine(x, y, line, L.font, c.colour, c.outline, env);
      if !drawn {
        return false, ops;
      }
      assert x == LineX(width, env, L.font, line);
      assert BlockDraws(width, env, L, c, j + 1)
        == BlockDraws(width, env, L, c, j) + LineDraws(x, y, line, L.font, c.colour, c.outline);
      ops := ops + lineOps;
      y := y + (env.bbox(L.font, line).bottom - env.bbox(L.font, line).top + 10) as real;
      assert y == LineY(env, L, j + 1);
    }
    ok := true;
  }

  /**
   * The body of the caption loop for one caption: size, font, wrap, block
   * height and start row, then the line loop. `ok` is false when an
   * exception escapes (wrap width 0, or a rejected colour).
   */
  method DrawCaption(width: nat, height: nat, c: Caption, env: Env) returns (ok: bool, ops: seq<Draw>)
    ensures ok ==> CaptionDraws(width, height, c, env) == Ok(ops)
    ensures !ok ==> CaptionDraws(width, height, c, env).Raise?
  {
    var size := BaseSize(width, |c.text|);
    var font := CaptionFont(size, env.arialLoads);
    var text := Upper(c.text);
    var wrapWidth := WrapWidth(width, size);
    var wrapped := Wrap(text, wrapWidth);
    if wrapped.Raise? {
      return false, [];
    }
    var lines := wrapped.value;
    var total := TotalHeight(env, font, lines);
    var L := Layout(font, lines, StartY(c.position, height, total));
    assert CaptionLayout(width, height, c, env) == Ok(L);
    ok, ops := DrawBlock(width, env, L, c);
  }

  /** `r` is what drawing caption `c` comes to. */
  predicate DrawnAs(width: nat, height: nat, c: Caption, env: Env, r: Result<seq<Draw>>)
  {
    CaptionDraws(width, height, c, env) == r
  }

  /** The precomputed results are, position by position, the captions' draws. */
  lemma AllCaptionDrawsDrawn(width: nat, height: nat, cs: seq<Caption>, env: Env)
    ensures forall k {:trigger DrawnAs(width, height, cs[k], env, AllCaptionDraws(width, height, cs, env)[k])} ::
      0 <= k < |cs| ==> DrawnAs(width, height, cs[k], env, AllCaptionDraws(width, height, cs, env)[k])
  {
  }

  /**
   * The caption loop of `add_meme_text`: the captions are drawn in order, and
   * the first one that raises ends the loop (`ok` false). `rs` holds what each
   * caption comes to.
   */
  method DrawCaptions(width: nat, height: nat, cs: seq<Caption>, env: Env, ghost rs: seq<Result<seq<Draw>>>)
    returns (ok: bool, log: seq<Draw>)
    requires |rs| == |cs|
    requires forall k {:trigger DrawnAs(width, height, cs[k], env, rs[k])} ::
      0 <= k < |cs| ==> DrawnAs(width, height, cs[k], env, rs[k])
    ensures ok ==> Sequence(rs, |rs|) == Ok(log)
    ensures !ok ==> Sequence(rs, |rs|).Raise?
  {
    log := [];
    for i := 0 to |cs|
      invariant Sequence(rs, i) == Ok(log)
    {
      var captionOk, ops := DrawCaption(width, height, cs[i], env);
      assert DrawnAs(width, height, cs[i], env, rs[i]);
      if !captionOk {
        SequenceAbortsAt(rs, i);
        return false, log;
      }
      SequenceStep(rs, i, log, ops);
      log := log + ops;
    }
    ok := true;
  }

  /**
   * `add_meme_text`: converts to RGB, then draws the zipped captions in order;
   * the first exception makes the whole call return None.
   */
  method AddMemeText(img: Image, texts: seq<string>, positions: seq<string>, colors: seq<Colour>,
                     outlines: seq<Colour>, env: Env)
    returns (result: Option<Canvas>)
    ensures result == MemeText(img, texts, positions, colors, outlines, env)
    ensures result.Some? ==> result.value.base == ToRgb(img)
  {
    var base := ToRgb(img);
    var cs := Captions(texts, positions, colors, outlines);
    ghost var rs := AllCaptionDraws(base.width, base.height, cs, env);
    AllCaptionDrawsDrawn(base.width, base.height, cs, env);
    var ok, log := DrawCaptions(base.width, base.height, cs, env, rs);
    if !ok {
      MemeTextAborts(img, texts, positions, colors, outlines, env, rs);
      return None;
    }
    MemeTextDraws(img, texts, positions, colors, outlines, env, rs, log);
    result := Some(Canvas(base, log));
  }
}
