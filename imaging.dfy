/**
 * The handful of Pillow notions the overlay code touches, as values: an
 * image's size, mode and (symbolic) pixel data, fonts, bounding boxes and
 * text-drawing operations. Pixel arithmetic and glyph rasterisation are not
 * modelled; an image is identified by where its pixels came from.
 */
module Imaging {
  import opened Wrappers

  /** Pillow image modes that matter here; every other mode is kept by name. */
  datatype Mode = RGB | RGBA | Grey | Palette | OtherMode(name: string)

  /** Where an image's pixels come from: a decoded picture, or a mode conversion of other pixels. */
  datatype Pixels = Decoded(id: nat) | Converted(from: Mode, source: Pixels)

  datatype Image = Image(width: nat, height: nat, mode: Mode, pixels: Pixels)

  /**
   * `img.convert("RGB")`: a new image of the same size in RGB mode. Converting
   * an image that is already RGB yields a copy with the same pixels.
   */
  function ToRgb(img: Image): (r: Image)
    ensures r.width == img.width && r.height == img.height && r.mode == RGB
    ensures img.mode == RGB ==> r == img
    ensures img.mode != RGB ==> r.pixels == Converted(img.mode, img.pixels)
  {
    if img.mode == RGB then img else Image(img.width, img.height, RGB, Converted(img.mode, img.pixels))
  }

  /** A colour as the caller passes it to Pillow (a name such as "white" or a hex string). */
  type Colour = string

  /** A TrueType face loaded from a file, or Pillow's built-in default font. */
  datatype Face = TrueType(path: string) | BuiltIn

  /** A loaded font; `size` is None when the library default size is used. */
  datatype Font = Font(face: Face, size: Option<nat>)

  /** `font.getbbox(text)`: (left, top, right, bottom) in pixels. */
  datatype Box = Box(left: int, top: int, right: int, bottom: int)

  /** One `draw.text((x, y), line, font=font, fill=fill)` call. */
  datatype Draw = Text(x: int, y: real, line: string, font: Font, fill: Colour)
}
