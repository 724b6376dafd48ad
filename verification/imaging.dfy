/**
 * The image header the drying pipeline reasons about, and the size-cap
 * preprocessing that both dryers apply before encoding an image.
 * Pixel resampling (PIL's `convert` and `resize` with LANCZOS) is not
 * modelled; only the mode and the dimensions it produces are.
 */
module Imaging {

  /** An in-memory raster, reduced to its colour mode and size. */
  datatype Image = Image(mode: string, width: nat, height: nat)

  /** Longest side the remote endpoint is sent. */
  const MaxSide: nat := 1024

  function Longer(img: Image): nat
  {
    if img.width >= img.height then img.width else img.height
  }

  /**
   * `n` is what `int(dim * (MaxSide / longer))` yields when the float
   * arithmetic is read as exact rational arithmetic: the largest integer
   * whose product with `longer` does not exceed `dim * MaxSide`.
   */
  ghost predicate IsScaledSide(dim: nat, longer: nat, n: nat)
  {
    n * longer <= dim * MaxSide < (n + 1) * longer
  }

  lemma DivisionBounds(a: nat, b: nat)
    requires b > 0
    ensures (a / b) * b <= a < (a / b + 1) * b
  {
    var q, m := a / b, a % b;
    assert a == q * b + m;
  }

  lemma ScaleSideFacts(dim: nat, longer: nat)
    requires dim <= longer && longer > MaxSide
    ensures IsScaledSide(dim, longer, dim * MaxSide / longer)
    ensures dim * MaxSide / longer <= dim && dim * MaxSide / longer <= MaxSide
    ensures dim == longer ==> dim * MaxSide / longer == MaxSide
  {
    var n := dim * MaxSide / longer;
    DivisionBounds(dim * MaxSide, longer);
    assert n * longer <= dim * longer by {
      assert n * longer <= dim * MaxSide <= dim * longer;
    }
    assert n * longer <= MaxSide * longer by {
      assert dim * MaxSide <= longer * MaxSide;
    }
    if dim == longer {
      assert longer * MaxSide / longer == MaxSide;
    }
  }

  /** One side of an oversized image after the size cap. */
  function ScaleSide(dim: nat, longer: nat): (n: nat)
    requires dim <= longer && longer > MaxSide
    ensures IsScaledSide(dim, longer, n)
    ensures n <= dim && n <= MaxSide
    ensures dim == longer ==> n == MaxSide
  {
    ScaleSideFacts(dim, longer);
    dim * MaxSide / longer
  }

  /**
   * Converts to RGB and, when the longer side exceeds 1024, scales both
   * sides by 1024/longer, truncating. Shared by the single-shot and the
   * enhanced dryer, whose two definitions are the same code.
   */
  function Preprocess(img: Image): (r: Image)
    ensures r.mode == "RGB"
    ensures Longer(img) <= MaxSide ==> r.width == img.width && r.height == img.height
    ensures Longer(img) > MaxSide ==>
              IsScaledSide(img.width, Longer(img), r.width)
              && IsScaledSide(img.height, Longer(img), r.height)
              && Longer(r) == MaxSide
    ensures r.width <= img.width && r.height <= img.height
    ensures Longer(r) <= MaxSide
  {
    var l := Longer(img);
    if l > MaxSide then
      Image("RGB", ScaleSide(img.width, l), ScaleSide(img.height, l))
    else
      Image("RGB", img.width, img.height)
  }

  /** Preprocessing a preprocessed image changes nothing. */
  lemma PreprocessIdempotent(img: Image)
    ensures Preprocess(Preprocess(img)) == Preprocess(img)
  {
  }

  /**
   * Positive dimensions are not preserved: a 1x2000 image is cut to
   * width 0, because 1 * 1024 / 2000 truncates to 0.
   */
  lemma ThinImageLosesItsWidth()
    ensures Preprocess(Image("L", 1, 2000)) == Image("RGB", 0, 1024)
  {
  }

  /** A 2000x500 image keeps its 4:1 ratio and becomes 1024x256. */
  lemma WideImageExample()
    ensures Preprocess(Image("RGBA", 2000, 500)) == Image("RGB", 1024, 256)
  {
  }
}
