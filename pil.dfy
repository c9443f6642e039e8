/**
 * The part of the Python Imaging Library (PIL) that the editor calls.
 * Pixel contents are not modelled: an image is an abstract value and every
 * PIL operation is an uninterpreted function, supplied as a field of
 * `Library`.  The constants the editor passes to PIL are modelled exactly.
 */
module Pil {
  /** A decoded image. Images are never changed in place, so value semantics suffice. */
  type Image(==)

  /** The colour mode requested by `Image.convert`; the editor only asks for "L" (grayscale). */
  datatype Mode = L

  /** Arguments of `Image.filter`. */
  datatype ImageFilter =
    | MedianFilter(size: nat)
    | UnsharpMaskFilter(radius: nat, percent: nat, threshold: nat)
    | FindEdgesFilter

  /** Arguments of `Image.point`: a per-sample function or a lookup table. */
  datatype PointOp = Scale(factor: real) | Table(lut: seq<real>)

  /** The four `ImageEnhance` classes the editor uses. */
  datatype Enhancer = Brightness | Contrast | Sharpness | Color

  /** The PIL operations, as functions the model does not interpret. */
  datatype Library = Library(
    filter: (Image, ImageFilter) -> Image,
    convert: (Image, Mode) -> Image,
    point: (Image, PointOp) -> Image,
    enhance: (Enhancer, Image, real) -> Image,
    pow: (real, real) -> real)

  /** The gamma lookup table: entry x is 255 * (x / 255) ^ gamma, for the 256 sample values. */
  function GammaTable(pil: Library, gamma: real): (lut: seq<real>)
    ensures |lut| == 256
    ensures forall x :: 0 <= x < 256 ==> lut[x] == pil.pow(x as real / 255.0, gamma) * 255.0
  {
    seq(256, x => pil.pow(x as real / 255.0, gamma) * 255.0)
  }

  /** The five preset operations of the editor's ImageProcessor. */
  datatype Preset =
    | Denoise
    | HistogramEqualization
    | GammaCorrection(gamma: real)
    | UnsharpMask
    | EdgeDetection

  /** The PIL call each preset makes on its input image, with the editor's constants. */
  function PresetImage(pil: Library, p: Preset, source: Image): (r: Image)
  {
    match p
    case Denoise => pil.filter(source, MedianFilter(3))
    case HistogramEqualization => pil.point(pil.convert(source, L), Scale(1.5))
    case GammaCorrection(g) => pil.point(source, Table(GammaTable(pil, g)))
    case UnsharpMask => pil.filter(source, UnsharpMaskFilter(2, 150, 3))
    case EdgeDetection => pil.filter(source, FindEdgesFilter)
  }
}
