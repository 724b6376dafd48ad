/**
 * The local fallback effect: brightness and contrast lookup tables applied
 * to every channel, then a per-pixel saturation reduction written back one
 * pixel at a time. The hue/saturation/value round trip is floating point
 * and is taken as a given per-pixel function `desaturate`.
 */
module Fallback {
  import opened Imaging

  /** A pixel's three channels. They are unbounded: see `ContrastLut`. */
  datatype Rgb = Rgb(r: int, g: int, b: int)

  function Min(a: int, b: int): int
  {
    if a <= b then a else b
  }

  /** Python's `int()` of the rational `n / 10`: truncation toward zero. */
  function TruncTenth(n: int): (q: int)
    ensures n >= 0 ==> 10 * q <= n < 10 * q + 10
    ensures n < 0 ==> 10 * q - 10 < n <= 10 * q
  {
    if n >= 0 then n / 10 else -((-n) / 10)
  }

  lemma TruncTenthMonotone(n: int, m: int)
    requires n <= m
    ensures TruncTenth(n) <= TruncTenth(m)
  {
    var a, b := TruncTenth(n), TruncTenth(m);
    if n >= 0 {
      assert 10 * a <= n <= m < 10 * b + 10;
    } else if m < 0 {
      assert 10 * a - 10 < n <= m <= 10 * b;
    }
  }

  /** `min(255, int(p * 1.2))`, with 1.2 read as the exact ratio 12/10. */
  function BrightnessLut(p: int): int
  {
    Min(255, TruncTenth(12 * p))
  }

  /** `min(255, int(128 + 1.1 * (p - 128)))`, that is min(255, trunc((11p - 128) / 10)). */
  function ContrastLut(p: int): int
  {
    Min(255, TruncTenth(11 * p - 128))
  }

  /** The two `point` passes, on every channel. */
  function Tone(px: Rgb): Rgb
  {
    Rgb(ContrastLut(BrightnessLut(px.r)), ContrastLut(BrightnessLut(px.g)), ContrastLut(BrightnessLut(px.b)))
  }

  /** On channel values the brightness table never darkens and never exceeds 255. */
  lemma BrightnessLutBounds(p: int)
    requires 0 <= p <= 255
    ensures p <= BrightnessLut(p) <= 255
  {
  }

  lemma BrightnessLutMonotone(p: int, q: int)
    requires p <= q
    ensures BrightnessLut(p) <= BrightnessLut(q)
  {
    TruncTenthMonotone(12 * p, 12 * q);
  }

  /** The contrast table keeps the mid level 128 fixed and is capped at 255. */
  lemma ContrastLutMidpoint(p: int)
    ensures ContrastLut(128) == 128
    ensures ContrastLut(p) <= 255
  {
  }

  lemma ContrastLutMonotone(p: int, q: int)
    requires p <= q
    ensures ContrastLut(p) <= ContrastLut(q)
  {
    TruncTenthMonotone(11 * p - 128, 11 * q - 128);
  }

  /**
   * Only the upper end is capped: dark channels leave the contrast table
   * negative (0 gives -12, 10 gives -1), and 11 is the first that gives 0.
   */
  lemma ContrastLutBelowZero()
    ensures ContrastLut(0) == -12
    ensures ContrastLut(10) == -1
    ensures ContrastLut(11) == 0
  {
  }

  /** After both tables a channel value lies in -12 .. 255. */
  lemma ToneChannelRange(p: int)
    requires 0 <= p <= 255
    ensures -12 <= ContrastLut(BrightnessLut(p)) <= 255
  {
    BrightnessLutBounds(p);
    ContrastLutMonotone(0, BrightnessLut(p));
  }

  /** The cells (x, 0) .. (x, h - 1) of column x, in loop order. */
  function Column(x: nat, h: nat): (r: seq<(nat, nat)>)
    ensures |r| == h
    ensures forall y :: 0 <= y < h ==> r[y] == (x, y)
    decreases h
  {
    if h == 0 then [] else Column(x, h - 1) + [(x, h - 1)]
  }

  /** The cells of a w x h image in the order the loop visits them: x outer, y inner. */
  function LoopOrder(w: nat, h: nat): seq<(nat, nat)>
    decreases w
  {
    if w == 0 then [] else LoopOrder(w - 1, h) + Column(w - 1, h)
  }

  lemma {:induction false} LoopOrderBounds(w: nat, h: nat)
    ensures forall k :: 0 <= k < |LoopOrder(w, h)| ==> LoopOrder(w, h)[k].0 < w && LoopOrder(w, h)[k].1 < h
    decreases w
  {
    if w > 0 {
      LoopOrderBounds(w - 1, h);
    }
  }

  ghost predicate Distinct<T>(s: seq<T>)
  {
    forall i, j :: 0 <= i < j < |s| ==> s[i] != s[j]
  }

  lemma {:induction false} LoopOrderHas(w: nat, h: nat, x: nat, y: nat)
    requires x < w && y < h
    ensures (x, y) in LoopOrder(w, h)
    decreases w
  {
    var prefix, col := LoopOrder(w - 1, h), Column(w - 1, h);
    if x == w - 1 {
      assert (prefix + col)[|prefix| + y] == col[y];
    } else {
      LoopOrderHas(w - 1, h, x, y);
    }
  }

  /** Every in-range cell occurs in the loop order, and nothing else does. */
  lemma LoopOrderCovers(w: nat, h: nat)
    ensures forall x: nat, y: nat :: (x, y) in LoopOrder(w, h) <==> x < w && y < h
  {
    LoopOrderBounds(w, h);
    forall x: nat, y: nat | x < w && y < h ensures (x, y) in LoopOrder(w, h) {
      LoopOrderHas(w, h, x, y);
    }
  }

  /** No cell occurs twice in the loop order. */
  lemma {:induction false} LoopOrderDistinct(w: nat, h: nat)
    ensures Distinct(LoopOrder(w, h))
    decreases w
  {
    if w > 0 {
      LoopOrderDistinct(w - 1, h);
      LoopOrderBounds(w - 1, h);
      var prefix, col := LoopOrder(w - 1, h), Column(w - 1, h);
      var all := prefix + col;
      forall i, j | 0 <= i < j < |all| ensures all[i] != all[j] {
        if j < |prefix| {
          assert all[i] == prefix[i] && all[j] == prefix[j];
        } else if i >= |prefix| {
          assert all[i] == col[i - |prefix|] && all[j] == col[j - |prefix|];
        } else {
          assert all[i] == prefix[i] && all[j] == col[j - |prefix|];
        }
      }
    }
  }

  /**
   * The loop order visits every cell of the image exactly once: each
   * in-range cell occurs, nothing else does, and no cell occurs twice.
   */
  lemma LoopOrderExactlyOnce(w: nat, h: nat)
    ensures forall x: nat, y: nat :: (x, y) in LoopOrder(w, h) <==> x < w && y < h
    ensures Distinct(LoopOrder(w, h))
  {
    LoopOrderCovers(w, h);
    LoopOrderDistinct(w, h);
  }

  /** The fallback's image header: RGB, same width and height. */
  function FallbackImage(img: Image): (r: Image)
    ensures r.mode == "RGB" && r.width == img.width && r.height == img.height
  {
    Image("RGB", img.width, img.height)
  }

  /**
   * `apply_fallback_drying_effect` on an image whose RGB pixels are
   * `pixels` (indexed [x, y]). Returns the new header, the new pixels and
   * the cells written by the saturation loop, in order.
   */
  method ApplyFallback(img: Image, pixels: array2<Rgb>, desaturate: Rgb -> Rgb)
    returns (out: Image, result: array2<Rgb>, writes: seq<(nat, nat)>)
    requires pixels.Length0 == img.width && pixels.Length1 == img.height
    ensures out == FallbackImage(img)
    ensures result != pixels
    ensures result.Length0 == img.width && result.Length1 == img.height
    ensures forall x, y :: 0 <= x < img.width && 0 <= y < img.height ==>
              result[x, y] == desaturate(Tone(pixels[x, y]))
    ensures writes == LoopOrder(img.width, img.height)
  {
    out := FallbackImage(img);
    var w, h := pixels.Length0, pixels.Length1;
    // a copy with the brightness and contrast tables applied
    result := new Rgb[w, h]((x, y) requires 0 <= x < pixels.Length0 && 0 <= y < pixels.Length1 reads pixels => Tone(pixels[x, y]));
    writes := [];
    var x := 0;
    while x < w
      invariant 0 <= x <= w
      invariant writes == LoopOrder(x, h)
      invariant forall i, j :: 0 <= i < w && 0 <= j < h ==>
                  result[i, j] == (if i < x then desaturate(Tone(pixels[i, j])) else Tone(pixels[i, j]))
    {
      var y := 0;
      while y < h
        invariant 0 <= y <= h
        invariant writes == LoopOrder(x, h) + Column(x, y)
        invariant forall i, j :: 0 <= i < w && 0 <= j < h ==>
                    result[i, j] == (if i < x || (i == x && j < y) then desaturate(Tone(pixels[i, j]))
                                     else Tone(pixels[i, j]))
      {
        var p := result[x, y];
        result[x, y] := desaturate(p);
        writes := writes + [(x, y)];
        y := y + 1;
      }
      x := x + 1;
    }
  }
}
