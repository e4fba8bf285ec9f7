/**
 * The image library the pipeline relies on (cimg), reduced to what the
 * orientation logic can observe: dimensions, row stride, pixel format, and a
 * symbolic description of where an image's pixels come from. Pixel values
 * themselves are not modelled; each primitive fixes only the shape of its result.
 */
module Images {

  datatype PixelFormat = Gray | RGB | BGR | RGBA | BGRA | ARGB | ABGR

  /** Bytes per pixel. */
  function NChan(f: PixelFormat): nat
  {
    match f
    case Gray => 1
    case RGB | BGR => 3
    case _ => 4
  }

  /**
   * Provenance of an image's pixels: an original scan, a grayscale conversion,
   * a resampling, a sub-rectangle view starting at (left, top) of another
   * raster, a rotation by some degrees, or a freshly allocated blank buffer.
   */
  datatype Raster =
    | Scan(id: nat)
    | Grayscale(src: Raster)
    | Resampled(src: Raster)
    | Window(src: Raster, left: nat, top: nat)
    | Turned(src: Raster, degrees: real)
    | Blank

  datatype Image = Image(width: nat, height: nat, stride: nat, format: PixelFormat, raster: Raster)

  /** Rows follow each other without padding. */
  predicate IsDense(img: Image)
  {
    img.stride == img.width * NChan(img.format)
  }

  /** A fresh, dense, blank image. */
  function NewImage(width: nat, height: nat, format: PixelFormat): Image
  {
    Image(width, height, width * NChan(format), format, Blank)
  }

  /** Grayscale conversion into a new dense buffer. */
  function ToGray(img: Image): Image
  {
    Image(img.width, img.height, img.width, Gray, Grayscale(img.raster))
  }

  /** Resampling into a new dense buffer of the given size. */
  function ResizeNew(img: Image, width: nat, height: nat): Image
  {
    Image(width, height, width * NChan(img.format), img.format, Resampled(img.raster))
  }

  /** A zero-copy view of [x1, x2) x [y1, y2): it keeps the parent's stride. */
  function ReferenceCrop(img: Image, x1: nat, y1: nat, x2: nat, y2: nat): Image
    requires x1 <= x2 <= img.width && y1 <= y2 <= img.height
  {
    Image(x2 - x1, y2 - y1, img.stride, img.format, Window(img.raster, x1, y1))
  }

  /** A deep copy into a dense buffer: same pixels, stride reset. */
  function Clone(img: Image): Image
  {
    img.(stride := img.width * NChan(img.format))
  }

  /**
   * Rotation of `src` about its centre into the pre-allocated `dst`, whose
   * dimensions the caller chose. The angle is kept in degrees.
   */
  function Rotate(src: Image, dst: Image, degrees: real): Image
  {
    dst.(raster := Turned(src.raster, degrees))
  }
}
