/**
  The per-pixel arithmetic the viewer performs itself rather than in
  OpenCV: the hue rotation and saturation boost of the HSV/HLS tasks, and the
  binary threshold rule the viewer and saver rely on.
 */
module PixelRules {
  import opened Images

  /** Added to every hue; 8-bit OpenCV hue lives in [0, HueRange). */
  const HueOffset: int := 10
  const HueRange: int := 180
  /** Added, saturating at 255, to every saturation sample. */
  const SaturationBoost: int := 30
  /** Value written where the threshold is exceeded. */
  const MaxValue: byte := 255

  /** `(h.astype(np.int32) + 10) % 180`, cast back to `uint8`. */
  function ShiftHue(h: byte): (r: byte)
    ensures r as int < HueRange
    ensures h as int < HueRange - HueOffset ==> r as int == h as int + HueOffset
    ensures HueRange - HueOffset <= h as int < HueRange ==> r as int == h as int + HueOffset - HueRange
    ensures (h as int + HueOffset - r as int) % HueRange == 0
  {
    ((h as int + HueOffset) % HueRange) as byte
  }

  /** `cv2.add(s, 30)` on a `uint8` plane: saturating addition. */
  function BoostSaturation(s: byte): (r: byte)
    ensures s <= r
    ensures r as int == s as int + SaturationBoost || r == 255
    ensures s as int + SaturationBoost <= 255 ==> r as int == s as int + SaturationBoost
  {
    if s as int + SaturationBoost > 255 then 255 else (s as int + SaturationBoost) as byte
  }

  /** OpenCV's THRESH_BINARY rule with maximum value 255. */
  function ThresholdSample(v: byte, t: int): (r: byte)
    ensures r == 0 || r == MaxValue
    ensures r == MaxValue <==> v as int > t
  {
    if v as int > t then MaxValue else 0
  }

  /** `cv2.threshold(img, t, 255, cv2.THRESH_BINARY)`, sample by sample. */
  function ThresholdImage(img: Image, t: int): (r: Image)
    ensures r.rows == img.rows && r.cols == img.cols && r.chans == img.chans
    ensures |r.data| == |img.data|
    ensures forall i :: 0 <= i < |r.data| ==> (r.data[i] == MaxValue <==> img.data[i] as int > t)
    ensures forall i :: 0 <= i < |r.data| ==> r.data[i] == 0 || r.data[i] == MaxValue
  {
    img.(data := seq(|img.data|, i requires 0 <= i < |img.data| => ThresholdSample(img.data[i], t)))
  }

  /** Number of interleaved planes `cv2.split` yields for an HSV or HLS image. */
  const Planes: nat := 3

  /** The rule applied to a sample of plane `plane`: rotate the hue plane, boost the saturation plane. */
  function PlaneRule(v: byte, plane: nat, hue: nat, sat: nat): byte
  {
    if plane == hue then ShiftHue(v) else if plane == sat then BoostSaturation(v) else v
  }

  /**
    Split into three planes, rotate the plane `hue`, boost the plane `sat`,
    keep the third, merge back. HSV puts hue, saturation, value at 0, 1, 2;
    HLS puts hue, lightness, saturation at 0, 1, 2. The hue samples stay
    below 180, the saturation samples never decrease, the third plane's
    samples are unchanged.
   */
  function ShiftHueBoostSaturation(img: Image, hue: nat, sat: nat): (r: Image)
    requires hue < Planes && sat < Planes && hue != sat
    ensures r.rows == img.rows && r.cols == img.cols && r.chans == img.chans
    ensures |r.data| == |img.data|
    ensures forall i :: 0 <= i < |r.data| && i % Planes == hue ==>
              r.data[i] as int < HueRange && r.data[i] == ShiftHue(img.data[i])
    ensures forall i :: 0 <= i < |r.data| && i % Planes == sat ==>
              img.data[i] <= r.data[i] && r.data[i] == BoostSaturation(img.data[i])
    ensures forall i :: 0 <= i < |r.data| && i % Planes != hue && i % Planes != sat ==>
              r.data[i] == img.data[i]
  {
    img.(data := seq(|img.data|, i requires 0 <= i < |img.data| =>
      if i % Planes == hue then ShiftHue(img.data[i])
      else if i % Planes == sat then BoostSaturation(img.data[i])
      else img.data[i]))
  }

}
