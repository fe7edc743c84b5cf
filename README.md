# Meme caption overlay — a Dafny model

This project models the text-compositing core of a meme generator written in
Python on top of Pillow. There are two overlay routines.

- `add_meme_text` in `meme_generator.py` draws a list of captions onto one
  RGB copy of the base picture. For each caption it:
  - clamps a font size computed from the image width and the caption length;
  - derives a wrap width in characters;
  - word-wraps the upper-cased text with Python's `textwrap.wrap`;
  - sums the line heights plus 10 px into a block height;
  - chooses a start row from the anchor (`Top`, `Bottom` or centre);
  - draws each line centred on its own, first an eight-offset outline halo in
    the outline colour, then the fill.

  Any exception makes the whole call return `None`.
- `utils/meme_creation.py` is the frame-producing variant:
  - `load_font` falls back to Pillow's default font;
  - `add_meme_text` produces eleven frames for the `fade_in` effect and one
    image otherwise, and it draws no text at all;
  - `create_gif` writes the first frame and then the rest as an endlessly
    looping animation.

Modules:

- `wrappers.dfy`, `Wrappers`: `Option` and a `Result` that carries a Python
  exception (`ValueError`, `IndexError`).
- `imaging.dfy`, `Imaging`: images as values (size, mode, symbolic pixels),
  `convert("RGB")`, fonts, bounding boxes and the `draw.text` operation.
- `pytext.dfy`, `PyText`: `str.upper` on ASCII, and `textwrap.wrap` with
  every default option except `break_on_hyphens`:
  - tab expansion and whitespace translation;
  - the chunk split;
  - the greedy line filler;
  - long-word breaking;
  - dropping of surrounding whitespace;
  - `ValueError` for a width that is not positive.
- `meme_generator.dfy`, `MemeGenerator`: the multi-caption overlay.
  - The arithmetic is functions.
  - The loops are methods: `DrawHaloRow` holds the inner `dy` loop,
    `DrawLine` the `dx` loop around it and the fill draw, `DrawBlock` the
    line loop with its `y` accumulator,
    `DrawCaption` the layout of one caption followed by that loop,
    `DrawCaptions` the caption loop, and `AddMemeText` the whole call.
  - Each method is proved against a specification function. Its output is an
    ordered log of draw operations.
- `meme_creation.dfy`, `MemeCreation`: `load_font`, the frame-producing
  `add_meme_text` (a method whose `fade_in` loop appends copies) and
  `create_gif`.

Things the code does not control become parameters:

- In `meme_generator.py` they are collected in `Env`:
  - whether `arial.ttf` loads;
  - the font metrics `font.getbbox(line)`, an arbitrary function;
  - whether Pillow accepts a colour string.

  A rejected colour raises `ValueError` at the first draw that uses it.
- In `utils/meme_creation.py` the only parameter is whether
  `assets/Impact.ttf` loads.

Floating point is modelled exactly:

- `img.width/12 - len(text)/3` is `(w - 4n)/12`, truncated toward zero as
  `int()` does.
- `int((0.9 w)/(0.6 s))` is `3w / (2s)`, rounded down.
- `int(h * 0.05)` is `h / 20`.
- The row `h * 0.05` of a `Top` caption stays a real number, as in Python,
  where `y` is a float there.

Behaviour of the code worth noting:

- `fade_in` makes eleven frames (`range(0, 255, 25)`), and it draws nothing
  on them.
- `utils/meme_creation.py` never draws the text.
- `create_gif` accepts a single frame; only an empty list fails, with
  `IndexError`.
- A word longer than the wrap width is broken into pieces of at most that
  width. When the current line still has room, the first piece goes on that
  line.
- The font size depends on the length of the caption before upper-casing.

## Model

| member | source | states |
|---|---|---|
| Imaging.ToRgb | meme_generator.py:75 | the converted image keeps width and height and is in RGB mode; an RGB input is returned as it is, any other input gets pixels converted from its own |
| MemeGenerator.TruncDivRounds | meme_generator.py:79 | `int()` of a quotient rounds toward zero: down for a non-negative dividend, up for a negative one |
| MemeGenerator.TruncDiv12Monotone | meme_generator.py:79 | truncating division by 12 is monotone |
| MemeGenerator.BaseSize | meme_generator.py:79 | the caption font size always lies in [30, 80]; it is 30 when the truncated `w/12 - len/3` is at most 30, 80 when it is at least 80, and that truncated value itself in between |
| MemeGenerator.BaseSizeShrinks | meme_generator.py:79 | a longer caption (length taken before upper-casing) never gets a larger font |
| MemeGenerator.BaseSizeGrows | meme_generator.py:79 | a wider image never gets a smaller font |
| MemeGenerator.BaseSizeBelowWidth | meme_generator.py:79 | the size is at most a twelfth of the width unless it sits at the lower clamp 30 |
| MemeGenerator.CaptionFont | meme_generator.py:80-83 | the font always has the computed size; its face is `arial.ttf` when that loads, else the built-in default |
| MemeGenerator.TruncDiv | meme_generator.py:79 | Python's `int()` of a quotient; TruncDivRounds states how it rounds |
| MemeGenerator.WrapWidth | meme_generator.py:86-88 | the wrap width lies in [0, 20]; its exact value is stated by WrapWidthCells and WrapWidthCap |
| MemeGenerator.WrapWidthCells | meme_generator.py:86-88 | below the cap, the wrap width is the largest number of `0.6 * size` cells that fit in `0.9 * width` |
| MemeGenerator.WrapWidthCap | meme_generator.py:86-88 | the wrap width is 20 exactly when at least 20 cells of `0.6 * size` fit in `0.9 * width` (`40 size <= 3 w`) |
| MemeGenerator.WrapWidthPositive | meme_generator.py:79-88 | the wrap width is at least 1 exactly when the image is at least 20 pixels wide, whatever the caption |
| MemeGenerator.Captions | meme_generator.py:78 | `zip` yields as many captions as the shortest of the four lists, the k-th holding the k-th element of each |
| PyText.Upper | meme_generator.py:85 | upper-casing keeps the length, turns each lower-case ASCII letter into its capital (code point minus 32), leaves every other character as it is, and leaves no lower-case letter |
| PyText.UpperIdempotent | meme_generator.py:85 | upper-casing twice is upper-casing once |
| PyText.UpperKeepsWrapSpace | meme_generator.py:85 | upper-casing leaves whitespace status of every character unchanged |
| PyText.Wrap | meme_generator.py:89 | `textwrap.wrap` raises exactly when the width is not positive, and the exception is ValueError |
| PyText.WrapLineBound | meme_generator.py:89 | for a positive width the wrap succeeds and no line is longer than the width |
| PyText.WrapKeepsVisible | meme_generator.py:89 | wrapping only drops or rewrites whitespace: read in order, the lines hold exactly the text's non-whitespace characters |
| PyText.WrapBlank | meme_generator.py:89 | text made only of whitespace wraps to no lines |
| PyText.ExpandTabs | meme_generator.py:89 | `expandtabs()` as textwrap applies it: no tab is left; VisibleExpandTabs states that no visible character changes |
| PyText.VisibleExpandTabs | meme_generator.py:89 | tab expansion keeps the visible characters, in order |
| PyText.Translate | meme_generator.py:89 | every textwrap whitespace character becomes a space and every other character is kept |
| PyText.VisibleTranslate | meme_generator.py:89 | whitespace translation keeps the visible characters, in order |
| PyText.Run | meme_generator.py:89 | the length of the longest prefix of all-whitespace or all-non-whitespace characters, bounded and maximal |
| PyText.IsPySpace | meme_generator.py:89 | the characters Python's `str.isspace` accepts, which `strip()` removes when textwrap drops whitespace; related to IsWrapSpace by WrapSpaceIsPySpace |
| PyText.IsWrapSpace | meme_generator.py:89 | the six characters textwrap splits and translates on: tab, newline, vertical tab, form feed, carriage return, space |
| PyText.WrapSpaceIsPySpace | meme_generator.py:89 | every textwrap whitespace character is `isspace` whitespace, but not the converse (no-break space) |
| PyText.Munge | meme_generator.py:89 | textwrap's whitespace munging, tab expansion then translation; MungeKeepsVisible states its property |
| PyText.Chunks | meme_generator.py:89 | textwrap's chunk split yields no empty chunk; JoinChunks states that the chunks make up the text, and ChunksAreRuns that they are its maximal runs |
| PyText.ChunksAreRuns | meme_generator.py:89 | every chunk is all whitespace or all non-whitespace, neighbouring chunks differ in kind, and the first chunk starts the text: words are never split or glued |
| PyText.JoinChunks | meme_generator.py:89 | the chunks textwrap splits the text into concatenate back to the text |
| PyText.MungeKeepsVisible | meme_generator.py:89 | tab expansion and whitespace translation gain, lose and move no visible character |
| PyText.Greedy | meme_generator.py:89 | the filler splits the queue into a line prefix and the rest, stays within the width, and stops only at a chunk that does not fit |
| PyText.BreakLongWord | meme_generator.py:89 | textwrap's long-word break; BreakFacts, BreakCutsAtWidth and BreakKeepsText state its properties |
| PyText.BreakFacts | meme_generator.py:89 | breaking a long word keeps the line within the width and, on an empty line, always places something |
| PyText.BreakCutsAtWidth | meme_generator.py:89 | a chunk no longer than the width is never cut; a longer one is cut so that the line holds exactly `width` characters, the earlier pieces and the later queue unchanged |
| PyText.BreakKeepsText | meme_generator.py:89 | breaking a long word moves characters from the queue to the line without losing or reordering any |
| PyText.DropTrailingBlank | meme_generator.py:89 | dropping a trailing whitespace chunk; DropShortens and DropKeepsVisible state its properties |
| PyText.DropShortens | meme_generator.py:89 | dropping the trailing whitespace chunk never lengthens the line |
| PyText.DropKeepsVisible | meme_generator.py:89 | dropping the trailing whitespace chunk loses no visible character |
| PyText.NextLine | meme_generator.py:89 | one line of the filler stays within the width and always consumes input |
| PyText.NextLineVisible | meme_generator.py:89 | one line of the filler loses only whitespace |
| PyText.WrapChunks | meme_generator.py:89 | textwrap's outer line loop; WrapChunksBound and WrapChunksVisible state its properties |
| PyText.WrapChunksBound | meme_generator.py:89 | every line the outer loop emits is within the width |
| PyText.WrapChunksVisible | meme_generator.py:89 | the lines the outer loop emits hold exactly the chunks' visible characters, in order |
| MemeGenerator.CaptionLines | meme_generator.py:85-89 | a caption's wrap raises exactly when the image is narrower than 20 pixels; otherwise every line has at most 20 characters |
| MemeGenerator.CaptionLineBound | meme_generator.py:86-89 | every caption line has at most `wrap_width` characters |
| MemeGenerator.BlankCaptionHasNoLines | meme_generator.py:85-89 | a whitespace-only caption has no lines |
| MemeGenerator.CaptionLayout | meme_generator.py:79-98 | a caption's layout depends only on that caption, the image size and the environment; it fails exactly when the image is narrower than 20 pixels |
| MemeGenerator.HeightSum | meme_generator.py:91 | the sum of `height + 10` over the first n lines; stated by HeightSumBounds and LineYSteps |
| MemeGenerator.TotalHeight | meme_generator.py:91 | `total_height`, the sum over all lines; LineYSteps shows the line loop adds exactly this much to `y` |
| MemeGenerator.HeightSumBounds | meme_generator.py:91 | with non-negative line heights, the block height of n lines is at least 10 n |
| MemeGenerator.StartY | meme_generator.py:93-98 | the start row by anchor; its meaning is stated by StartYByAnchor |
| MemeGenerator.StartYByAnchor | meme_generator.py:93-98 | `Top` starts at 5% of the height; `Bottom` ends the block exactly `int(0.05 h)` above the bottom edge; any other anchor gives a whole row (`//`) that centres the block, the space above and below differing by at most one pixel |
| MemeGenerator.Margin | meme_generator.py:96 | `int(0.05 h)`; its value is stated by MarginRoundsDown |
| MemeGenerator.MarginRoundsDown | meme_generator.py:96 | the bottom margin is 5% of the height rounded down to a whole pixel |
| MemeGenerator.BottomWithinCanvas | meme_generator.py:95-96 | a bottom-anchored block that fits above the margin lies entirely on the canvas |
| MemeGenerator.LineWidth | meme_generator.py:101-102 | `bbox[2] - bbox[0]`, the line's pixel width; LineX states how it centres the line |
| MemeGenerator.LineHeight | meme_generator.py:91 | `bbox[3] - bbox[1]`, the line's pixel height; HeightSumBounds and LineYSteps state how it is summed and stepped |
| MemeGenerator.LineX | meme_generator.py:101-103 | each line's left edge centres that line within one pixel |
| MemeGenerator.HaloLoops | meme_generator.py:105-108 | the two loops over `[-2, 0, 2]` that skip (0, 0) visit exactly the eight halo offsets, in row-major order |
| MemeGenerator.HaloShape | meme_generator.py:105-107 | the halo is every offset pair from `{-2, 0, 2}` except (0, 0), each once |
| MemeGenerator.OutlineDraws | meme_generator.py:105-108 | one outline draw per halo offset |
| MemeGenerator.LineDraws | meme_generator.py:105-110 | the draws of one line; their number, order, positions and colours are stated by LineDrawsShape |
| MemeGenerator.LineDrawsShape | meme_generator.py:105-110 | a line gives nine draws: eight outline draws at the halo offsets in the outline colour, then the fill at exactly (x, y) in the fill colour |
| MemeGenerator.OutlineDrawsAppend | meme_generator.py:105-108 | the outline draws of two runs of offsets are the draws of the first run followed by those of the second |
| MemeGenerator.DrawHaloRow | meme_generator.py:106-108 | the inner `for dy` loop succeeds exactly when Pillow accepts the outline colour, and then draws one outline per offset of its row, (0, 0) skipped, in order |
| MemeGenerator.DrawLine | meme_generator.py:105-110 | the method succeeds exactly when Pillow accepts both colours, and then draws exactly the nine draws of the line |
| MemeGenerator.LineY | meme_generator.py:111 | the row of line k; LineYSteps states how it advances |
| MemeGenerator.BlockDraws | meme_generator.py:100-111 | the draws of a caption's first n lines in order; their layout is stated by BlockDrawsAt |
| MemeGenerator.DrawBlock | meme_generator.py:100-111 | the line-loop method succeeds exactly when there is no line or Pillow accepts both colours, and then draws exactly the caption's block |
| MemeGenerator.BlockDrawsAt | meme_generator.py:100-111 | a caption block has 9 draws per line; draw 9k + j is draw j of line k at that line's own x and accumulated y |
| MemeGenerator.LineYSteps | meme_generator.py:91-111 | each line starts where the previous line's step ends, and after the loop `y` is the start row plus `total_height` |
| MemeGenerator.BottomEndsAtMargin | meme_generator.py:96-111 | for a bottom-anchored caption the accumulated `y` ends at exactly `h - int(0.05 h)` |
| MemeGenerator.ColoursOk | meme_generator.py:108-110 | Pillow accepts both the outline and the fill colour; DrawLine and CaptionDrawsRaises state that the draws raise exactly otherwise |
| MemeGenerator.CaptionDraws | meme_generator.py:79-111 | the draws of one caption, or its exception; when it raises and how many draws it gives is stated by CaptionDrawsRaises |
| MemeGenerator.CaptionDrawsRaises | meme_generator.py:79-111 | a caption raises exactly when the image is narrower than 20 pixels, or when it has a line and a colour is rejected; otherwise it draws 9 per line |
| MemeGenerator.DrawCaption | meme_generator.py:79-111 | the caption method succeeds exactly when the caption's specification does, and then draws exactly its draws |
| MemeGenerator.Sequence | meme_generator.py:78-116 | the caption loop's exception behaviour; stated by SequenceRaisesIff, SequenceInOrder, SequenceStep and SequenceAbortsAt |
| MemeGenerator.SequenceRaisesIff | meme_generator.py:78-116 | the caption loop aborts exactly when some caption raises |
| MemeGenerator.SequenceInOrder | meme_generator.py:78-111 | without exceptions the draw log is the captions' draws concatenated in list order |
| MemeGenerator.SequenceStep | meme_generator.py:78-111 | one more caption that succeeds appends its draws to the log |
| MemeGenerator.SequenceAbortsAt | meme_generator.py:78-116 | an exception at any caption aborts the whole loop |
| MemeGenerator.SequencePrefixRaises | meme_generator.py:78-116 | once a prefix of the captions aborts, every longer prefix aborts |
| MemeGenerator.AllCaptionDraws | meme_generator.py:78-111 | there is one result per zipped caption |
| MemeGenerator.AllCaptionDrawsDrawn | meme_generator.py:78-111 | each caption's result is computed from that caption alone |
| MemeGenerator.DrawCaptions | meme_generator.py:78-111 | the caption-loop method succeeds exactly when no caption raises, and then its log is the ordered concatenation of the captions' draws |
| MemeGenerator.MemeText | meme_generator.py:73-116 | the overlay's result; when it is None is stated by MemeTextNoneIff, and what it holds otherwise by MemeTextDraws and BlankMemeIsConvertedInput |
| MemeGenerator.MemeTextAborts | meme_generator.py:115-116 | an exception in the captions makes the overlay return None |
| MemeGenerator.MemeTextDraws | meme_generator.py:75-113 | without exceptions the overlay returns the RGB copy with the loop's draws on it |
| MemeGenerator.MemeTextNoneIff | meme_generator.py:73-116 | the overlay returns None exactly when some zipped caption is drawn on an image narrower than 20 pixels, or has a line and a rejected colour |
| MemeGenerator.BlankCaptionDrawsNothing | meme_generator.py:89-100 | a whitespace-only caption on an image at least 20 pixels wide draws nothing |
| MemeGenerator.BlankCaptionsDrawNothing | meme_generator.py:78-111 | captions that each draw nothing leave the log empty |
| MemeGenerator.BlankMemeIsConvertedInput | meme_generator.py:73-113 | when every zipped caption is whitespace only, the result is the RGB-converted input with nothing drawn on it |
| MemeGenerator.AddMemeText | meme_generator.py:73-116 | the method returns the specified overlay, and any canvas it returns is drawn on the RGB conversion of the input |
| MemeCreation.LoadFont | utils/meme_creation.py:7-11 | the font is Impact exactly when the file loads, and has the requested size exactly then; otherwise it is the built-in default with no size |
| MemeCreation.FontSize | utils/meme_creation.py:26 | the size lies in [30, 80], is 30 below width 300 and 80 from width 800, and in between is the width in tens, rounded down |
| MemeCreation.FontSizeGrows | utils/meme_creation.py:26 | a wider image never gets a smaller font |
| MemeCreation.FrameLines | utils/meme_creation.py:23-30 | the upper-cased text wraps to lines of at most 15 characters that hold exactly its non-whitespace characters, in order |
| MemeCreation.PyRange | utils/meme_creation.py:34 | `range` with a positive step is empty exactly when stop is not above start |
| MemeCreation.PyRangeProgression | utils/meme_creation.py:34 | the range starts at start, climbs by step, stays below stop, and ends at the last value below stop |
| MemeCreation.FadeAlphas | utils/meme_creation.py:34 | the alpha values the fade loop runs over; FadeAlphasAre lists them |
| MemeCreation.FadeAlphasAre | utils/meme_creation.py:34 | `range(0, 255, 25)` is 0, 25, ..., 250: eleven values |
| MemeCreation.Copies | utils/meme_creation.py:34-38 | n copies of an image: n elements, each that image |
| MemeCreation.Overlay | utils/meme_creation.py:21-45 | the result of `add_meme_text`; FadeFrames and OtherEffectIsSingle state what it holds for each effect |
| MemeCreation.FadeFrames | utils/meme_creation.py:33-39 | `fade_in` gives a list of exactly eleven frames, each equal to the RGB-converted input |
| MemeCreation.OtherEffectIsSingle | utils/meme_creation.py:41-45 | any other effect, `slide_up` and `typing` included, gives one image: the RGB-converted input, same size, RGB mode |
| MemeCreation.AddMemeText | utils/meme_creation.py:13-45 | the method, with its frame-appending loop and the source's default anchor, colours and effect, returns the specified output for every effect |
| MemeCreation.CreateGif | utils/meme_creation.py:47-57 | an empty frame list raises IndexError and nothing else raises; the animation uses the given duration (100 by default) and loop 0 |
| MemeCreation.GifFrames | utils/meme_creation.py:49-53 | the frames in the order they are written; CreateGifKeepsFrames states that they are the input frames |
| MemeCreation.CreateGifKeepsFrames | utils/meme_creation.py:49-53 | the animation writes exactly the given frames, first frame first, in order |
| MemeCreation.FadeGif | utils/meme_creation.py:33-57 | the fade frames always make an eleven-frame animation of the RGB-converted input, 100 ms per frame, looping forever |

## Left out

- Glyph rasterisation and pixel values. A canvas is the converted base image
  plus the ordered log of `draw.text` calls; the loaded font files are only
  names.
- `font.getbbox` is an arbitrary function of the font and the line. Its
  values are not derived from any font.
- Pillow's colour parser is a predicate. Only its verdict, accept or raise
  `ValueError`, is modelled.
- `textwrap`'s hyphen splitting (`break_on_hyphens`, on by default in
  Python) is not modelled. Chunks are split at whitespace only, so any text
  that contains a hyphen or `--` can wrap to other lines than Python gives:
  Python may break a line after a hyphen (`well-` / `known`) or at a `--`
  between words, where the model keeps the hyphenated word whole or breaks
  it only at the width.
- `str.upper()` is modelled for ASCII letters only. Unicode case mappings,
  including those that change the length (such as `ß`), are not.
- Floating-point rounding is not modelled. The model uses exact rationals for
  `w/12 - len/3`, `0.9 w / (0.6 s)` and `h * 0.05`; IEEE rounding could move
  an `int()` across an integer boundary for a few widths and heights.
- MemeGenerator.CaptionFont: when `arial.ttf` is missing, the model does not
  capture that `load_default(size=...)` itself fails on Pillow versions
  before 10.1. The model assumes that call succeeds.
- MemeGenerator.AddMemeText: the in-place drawing on `img` and the identity of
  the copy made by `convert` are not modelled. Images are values, and the
  draws are collected in a log that the method returns with the base image.
- MemeCreation.AddMemeText: `img.copy()` and `ImageDraw.Draw(frame)` are
  value copies with no observable effect. The `alpha`, `position`,
  `text_color`, `outline_color` and the computed font and lines do not affect
  the result, exactly as in the code.
- Fade opacity schedules, slide-up offsets and typing reveal are not modelled.
  The code does not implement them.
- MemeCreation.CreateGif: GIF encoding into bytes is not modelled. The model
  keeps only the first frame, the appended frames, the duration and the loop
  count handed to `save`.
- `image_to_bytes` (JPEG encoding) is not modelled. It is byte serialisation
  done by Pillow.
- The filters `apply_filter`, `sepia` and `vintage`, and `add_watermark`
  (`meme_generator.py:12-71`), are not modelled. They are floating-point pixel
  work, random noise and alpha compositing.
- The Chainlit and Streamlit handlers (`meme_generator.py:118-346`, `meme.py`,
  `app.py`) and `utils/image_generation.py` are not modelled. They are user
  interface and network I/O.
