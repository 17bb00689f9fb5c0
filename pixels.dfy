/**
 * Pixel handling before classification: dropping background pixels
 * (`image_scan`), rescaling channels (`processing_rgba`) and the conversion
 * of every ink pixel to hue/saturation/lightness (`rgb_to_hsl`).
 */
module Pixels {

  /** One tuple of channel values as the image decoder yields it (three for RGB, four for RGBA). */
  type Pixel = seq<int>

  /** A hue/saturation/lightness triple; hue is a fraction of a full turn. */
  datatype Hsl = Hsl(hue: real, saturation: real, lightness: real)

  const White: Pixel := [255, 255, 255]
  const Transparent: Pixel := [0, 0, 0, 0]

  /**
   * The two tuples the filter removes. The test is tuple equality, so an
   * opaque white RGBA pixel [255, 255, 255, 255] is not background.
   */
  predicate IsBackground(p: Pixel) {
    p == White || p == Transparent
  }

  /** The decoded pixels with every background tuple removed. */
  function ImageScan(rgbaValues: seq<Pixel>): (ink: seq<Pixel>)
    ensures |ink| <= |rgbaValues|
    ensures forall p :: p in ink ==> p in rgbaValues && !IsBackground(p)
  {
    if |rgbaValues| == 0 then []
    else (if IsBackground(rgbaValues[0]) then [] else [rgbaValues[0]]) + ImageScan(rgbaValues[1..])
  }

  /** Filtering a concatenation filters each part in place: order is kept. */
  lemma {:induction false} ImageScanAppend(a: seq<Pixel>, b: seq<Pixel>)
    ensures ImageScan(a + b) == ImageScan(a) + ImageScan(b)
  {
    if |a| > 0 {
      assert (a + b)[0] == a[0];
      assert (a + b)[1..] == a[1..] + b;
      ImageScanAppend(a[1..], b);
    } else {
      assert a + b == b;
    }
  }

  /** A background tuple never survives; every other tuple survives with all its duplicates. */
  lemma {:induction false} ImageScanMultiplicity(rgbaValues: seq<Pixel>, p: Pixel)
    ensures multiset(ImageScan(rgbaValues))[p] == if IsBackground(p) then 0 else multiset(rgbaValues)[p]
  {
    if |rgbaValues| > 0 {
      assert rgbaValues == [rgbaValues[0]] + rgbaValues[1..];
      ImageScanMultiplicity(rgbaValues[1..], p);
    }
  }

  /** An image made only of background tuples has no ink pixels. */
  lemma {:induction false} ImageScanAllBackground(rgbaValues: seq<Pixel>)
    requires forall i :: 0 <= i < |rgbaValues| ==> IsBackground(rgbaValues[i])
    ensures ImageScan(rgbaValues) == []
  {
    if |rgbaValues| > 0 {
      ImageScanAllBackground(rgbaValues[1..]);
    }
  }

  /** Opaque white in RGBA form is not equal to the RGB white tuple, so it is kept. */
  lemma OpaqueWhiteIsInk(rgbaValues: seq<Pixel>)
    ensures ImageScan([[255, 255, 255, 255]] + rgbaValues) == [[255, 255, 255, 255]] + ImageScan(rgbaValues)
  {
  }

  /**
   * The first three channels (fewer if the tuple is shorter, as a slice
   * gives them), each divided by 255; any alpha channel is dropped.
   */
  function ProcessingRgba(rgba: Pixel): (rgb: seq<real>)
    ensures |rgb| == if |rgba| < 3 then |rgba| else 3
    ensures forall k :: 0 <= k < |rgb| ==> rgb[k] * 255.0 == rgba[k] as real
    ensures (forall k :: 0 <= k < |rgba| ==> 0 <= rgba[k] <= 255) ==>
              forall k :: 0 <= k < |rgb| ==> 0.0 <= rgb[k] <= 1.0
  {
    var n := if |rgba| < 3 then |rgba| else 3;
    seq(n, k requires 0 <= k < n => rgba[k] as real / 255.0)
  }

  /** The alpha channel has no influence on the rescaled triple. */
  lemma ProcessingRgbaIgnoresAlpha(rgb: Pixel, alpha: int)
    requires |rgb| == 3
    ensures ProcessingRgba(rgb + [alpha]) == ProcessingRgba(rgb)
  {
  }

  /**
   * One HSL triple per ink pixel, in order. `rgb2hsl` stands for the
   * conversion of the external colour library, which is not part of this model.
   */
  function RgbToHsl(rgbaValues: seq<Pixel>, rgb2hsl: seq<real> -> Hsl): (hslList: seq<Hsl>)
    ensures |hslList| == |rgbaValues|
    ensures forall i :: 0 <= i < |rgbaValues| ==> hslList[i] == rgb2hsl(ProcessingRgba(rgbaValues[i]))
  {
    if |rgbaValues| == 0 then []
    else [rgb2hsl(ProcessingRgba(rgbaValues[0]))] + RgbToHsl(rgbaValues[1..], rgb2hsl)
  }

  /**
   * Converting a concatenation converts each part in place; with
   * `ImageScanAppend`, the per-pixel pipeline keeps the pixel order.
   */
  lemma {:induction false} RgbToHslAppend(a: seq<Pixel>, b: seq<Pixel>, rgb2hsl: seq<real> -> Hsl)
    ensures RgbToHsl(a + b, rgb2hsl) == RgbToHsl(a, rgb2hsl) + RgbToHsl(b, rgb2hsl)
  {
    if |a| > 0 {
      assert (a + b)[0] == a[0];
      assert (a + b)[1..] == a[1..] + b;
      RgbToHslAppend(a[1..], b, rgb2hsl);
    } else {
      assert a + b == b;
    }
  }

  /** The HSL list of a concatenated image is the HSL lists of its parts' ink pixels, one after the other. */
  lemma InkHslAppend(a: seq<Pixel>, b: seq<Pixel>, rgb2hsl: seq<real> -> Hsl)
    ensures RgbToHsl(ImageScan(a + b), rgb2hsl)
         == RgbToHsl(ImageScan(a), rgb2hsl) + RgbToHsl(ImageScan(b), rgb2hsl)
  {
    ImageScanAppend(a, b);
    RgbToHslAppend(ImageScan(a), ImageScan(b), rgb2hsl);
  }
}
