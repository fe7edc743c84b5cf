/**
 * The frame-producing overlay of utils/meme_creation.py: `load_font`,
 * `add_meme_text` (one RGB copy, or eleven copies for the `fade_in` effect)
 * and `create_gif` (first frame plus the appended rest).
 *
 * The code computes a font and the wrapped lines but draws nothing, so every
 * frame it returns is the RGB-converted input; the model computes the same
 * values and proves what they satisfy.
 */
module MemeCreation {
  import opened Wrappers
  import opened PyText
  import opened Imaging

  /** `load_font(size)`: Impact at that size when the file loads, otherwise Pillow's default font, which has no size. */
  function LoadFont(size: nat, impactLoads: bool): (f: Font)
    ensures f.face == TrueType("assets/Impact.ttf") <==> impactLoads
    ensures f.size == Some(size) <==> impactLoads
    ensures !impactLoads ==> f == Font(BuiltIn, None)
  {
    if impactLoads then Font(TrueType("assets/Impact.ttf"), Some(size)) else Font(BuiltIn, None)
  }

  /** `min(80, max(30, int(img.width / 10)))`; the width is never negative, so `int` here rounds down. */
  function FontSize(width: nat): (s: nat)
    ensures 30 <= s <= 80
    ensures width < 300 ==> s == 30
    ensures width >= 800 ==> s == 80
    ensures 300 <= width < 800 ==> 10 * s <= width < 10 * s + 10
  {
    var q := width / 10;
    if q < 30 then 30 else if q > 80 then 80 else q
  }

  /** A wider image never gets a smaller font. */
  lemma FontSizeGrows(w1: nat, w2: nat)
    requires w1 <= w2
    ensures FontSize(w1) <= FontSize(w2)
  {
    assert w1 / 10 <= w2 / 10;
  }

  /** The fixed wrap width of this overlay. */
  const WrapColumns: int := 15

  /** `textwrap.wrap(text.upper(), width=15)`: never raises, as the width is positive. */
  function FrameLines(text: string): (lines: seq<string>)
    ensures forall i :: 0 <= i < |lines| ==> |lines[i]| <= WrapColumns
    ensures Visible(Join(lines)) == Visible(Upper(text))
  {
    WrapLineBound(Upper(text), WrapColumns);
    WrapKeepsVisible(Upper(text), WrapColumns);
    Wrap(Upper(text), WrapColumns).value
  }

  /** `range(start, stop, step)` for a positive step. */
  function PyRange(start: int, stop: int, step: int): (r: seq<int>)
    requires step > 0
    ensures r == [] <==> stop <= start
    decreases stop - start
  {
    if start >= stop then [] else [start] + PyRange(start + step, stop, step)
  }

  /** The range starts at `start`, climbs by `step`, stays below `stop`, and stops at the last value below it. */
  lemma {:induction false} PyRangeProgression(start: int, stop: int, step: int)
    requires step > 0
    ensures forall i :: 0 <= i < |PyRange(start, stop, step)| ==> start <= PyRange(start, stop, step)[i] < stop
    ensures forall i :: 0 <= i < |PyRange(start, stop, step)| - 1 ==>
      PyRange(start, stop, step)[i + 1] == PyRange(start, stop, step)[i] + step
    ensures PyRange(start, stop, step) != [] ==>
      PyRange(start, stop, step)[0] == start
      && PyRange(start, stop, step)[|PyRange(start, stop, step)| - 1] + step >= stop
    decreases stop - start
  {
    if start < stop {
      PyRangeProgression(start + step, stop, step);
      var r := PyRange(start + step, stop, step);
      assert PyRange(start, stop, step) == [start] + r;
      forall i | 0 <= i < |r| + 1
        ensures start <= ([start] + r)[i] < stop
      {
        if i > 0 {
          assert ([start] + r)[i] == r[i - 1];
        }
      }
      forall i | 0 <= i < |r|
        ensures ([start] + r)[i + 1] == ([start] + r)[i] + step
      {
        assert ([start] + r)[i + 1] == r[i];
        if i > 0 {
          assert ([start] + r)[i] == r[i - 1];
        }
      }
    }
  }

  /** The alpha values the fade loop runs over. */
  function FadeAlphas(): seq<int> { PyRange(0, 255, 25) }

  /** `range(0, 255, 25)` is 0, 25, ..., 250: eleven values. */
  lemma FadeAlphasAre()
    ensures FadeAlphas() == [0, 25, 50, 75, 100, 125, 150, 175, 200, 225, 250]
    ensures |FadeAlphas()| == 11
  {
    FadeAlphasMiddle();
    assert PyRange(25, 255, 25) == [25, 50, 75, 100, 125, 150, 175, 200, 225, 250];
  }

  lemma FadeAlphasMiddle()
    ensures PyRange(50, 255, 25) == [50, 75, 100, 125, 150, 175, 200, 225, 250]
  {
    FadeAlphasTail();
    assert PyRange(100, 255, 25) == [100, 125, 150, 175, 200, 225, 250];
    assert PyRange(75, 255, 25) == [75, 100, 125, 150, 175, 200, 225, 250];
  }

  lemma FadeAlphasTail()
    ensures PyRange(125, 255, 25) == [125, 150, 175, 200, 225, 250]
  {
    assert PyRange(250, 255, 25) == [250];
    assert PyRange(225, 255, 25) == [225, 250];
    assert PyRange(200, 255, 25) == [200, 225, 250];
    assert PyRange(175, 255, 25) == [175, 200, 225, 250];
    assert PyRange(150, 255, 25) == [150, 175, 200, 225, 250];
  }

  /** What `add_meme_text` returns: one image, or a list of frames. */
  datatype Output = Single(image: Image) | Frames(frames: seq<Image>)

  /** `n` copies of the same image. */
  function Copies(img: Image, n: nat): (r: seq<Image>)
    ensures |r| == n && forall i :: 0 <= i < n ==> r[i] == img
  {
    seq(n, _ => img)
  }

  /**
   * `add_meme_text`'s result: one copy of the RGB conversion per fade alpha
   * for `fade_in`, and a single copy for any other effect.
   */
  function Overlay(img: Image, effect: string): Output
  {
    if effect == "fade_in" then Frames(Copies(ToRgb(img), |FadeAlphas()|)) else Single(ToRgb(img))
  }

  /** The fade effect gives exactly eleven frames, each the RGB-converted input. */
  lemma FadeFrames(img: Image)
    ensures Overlay(img, "fade_in").Frames?
    ensures |Overlay(img, "fade_in").frames| == 11
    ensures forall i :: 0 <= i < 11 ==> Overlay(img, "fade_in").frames[i] == ToRgb(img)
  {
    FadeAlphasAre();
  }

  /** Any other effect, `slide_up` and `typing` included, gives one image: the RGB-converted input. */
  lemma OtherEffectIsSingle(img: Image, effect: string)
    requires effect != "fade_in"
    ensures Overlay(img, effect).Single?
    ensures Overlay(img, effect).image == ToRgb(img)
    ensures Overlay(img, effect).image.mode == RGB
    ensures Overlay(img, effect).image.width == img.width && Overlay(img, effect).image.height == img.height
  {
  }

  /**
   * `add_meme_text(img, text, position, text_color, outline_color, animation_effect)`.
   * The font and the wrapped lines are computed as in the source and then not
   * used; the text, anchor and colours therefore do not affect the result.
   * `impactLoads` says whether the Impact font file loads; pass it by name
   * when the defaults are used.
   */
  method AddMemeText(img: Image, text: string, position: string := "bottom", textColour: Colour := "white",
                     outlineColour: Colour := "black", effect: string := "none", impactLoads: bool)
    returns (out: Output)
    ensures out == Overlay(img, effect)
  {
    var base := ToRgb(img);
    var frames: seq<Image> := [];
    var font := LoadFont(FontSize(base.width), impactLoads);
    var lines := FrameLines(text);
    if effect == "fade_in" {
      var alphas := PyRange(0, 255, 25);
      for k := 0 to |alphas|
        invariant frames == Copies(base, k)
      {
        var frame := base;
        frames := frames + [frame];
      }
      return Frames(frames);
    }
    var frame := base;
    return Single(frame);
  }

  /** What `frames[0].save(..., save_all=True, append_images=frames[1:], duration=duration, loop=0)` is given. */
  datatype Gif = Gif(first: Image, appended: seq<Image>, duration: int, loop: nat)

  /** The frames of the animation, in the order they are written. */
  function GifFrames(g: Gif): seq<Image> { [g.first] + g.appended }

  /** `create_gif(frames, duration=100)`; an empty list raises IndexError at `frames[0]`. */
  function CreateGif(frames: seq<Image>, duration: int := 100): (r: Result<Gif>)
    ensures r.Raise? <==> frames == []
    ensures r.Raise? ==> r.error == IndexError
    ensures r.Ok? ==> r.value.duration == duration && r.value.loop == 0
  {
    if frames == [] then Raise(IndexError) else Ok(Gif(frames[0], frames[1..], duration, 0))
  }

  /** The animation writes the given frames, all of them, in the given order. */
  lemma CreateGifKeepsFrames(frames: seq<Image>, duration: int)
    requires frames != []
    ensures CreateGif(frames, duration).Ok?
    ensures GifFrames(CreateGif(frames, duration).value) == frames
  {
    assert [frames[0]] + frames[1..] == frames;
  }

  /** The fade frames always make a GIF of eleven frames, each the RGB-converted input, with the default 100 ms per frame and endless looping. */
  lemma FadeGif(img: Image)
    ensures CreateGif(Overlay(img, "fade_in").frames).Ok?
    ensures var g := CreateGif(Overlay(img, "fade_in").frames).value;
      |GifFrames(g)| == 11 && g.duration == 100 && g.loop == 0
      && forall i :: 0 <= i < 11 ==> GifFrames(g)[i] == ToRgb(img)
  {
    FadeFrames(img);
    CreateGifKeepsFrames(Overlay(img, "fade_in").frames, 100);
  }
}
