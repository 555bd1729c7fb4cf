/** The RGB to RGBA conversion of DOSEmulatorComponent.processVideoFrame:
    DOSBox emits 3 bytes per pixel, the texture wants 4 with full opacity. */
module FrameConvert {
  import opened EmulatorTypes

  const Width: nat := 320
  const Height: nat := 200
  const FramePixels: nat := Width * Height
  /** Length of the Uint8ClampedArray handed to ImageData. */
  const FrameBytes: nat := FramePixels * 4

  /** Reading a typed array past its end yields `undefined`, which a
      Uint8ClampedArray store turns into 0. */
  function Sample(data: seq<byte>, j: nat): byte {
    if j < |data| then data[j] else 0
  }

  /** Reference definition of output byte `p`: channel `p % 4` of pixel `p / 4`,
      copied from the input pixel's channel, or opaque alpha. */
  function RgbaByte(data: seq<byte>, p: nat): byte {
    if p % 4 == 3 then 255 else Sample(data, (p / 4) * 3 + p % 4)
  }

  /** The whole converted frame, declaratively: pixel `i` of the output carries
      the three input bytes from offset `3 * i` (0 past the end of the input)
      and full opacity. */
  function RgbToRgba(data: seq<byte>): (rgba: seq<byte>)
    ensures |rgba| == FrameBytes
    ensures forall p :: 0 <= p < FrameBytes ==> rgba[p] == RgbaByte(data, p)
    ensures forall i, k :: 0 <= i < FramePixels && 0 <= k < 3 ==>
      Channel(rgba, i, k) == Sample(data, 3 * i + k)
    ensures forall i :: 0 <= i < FramePixels ==> Channel(rgba, i, 3) == 255
  {
    var rgba := seq(FrameBytes, p requires 0 <= p < FrameBytes => RgbaByte(data, p));
    PixelsOf(data, rgba);
    rgba
  }

  /** Channel `k` of pixel `i` of an RGBA frame. */
  function Channel(rgba: seq<byte>, i: nat, k: nat): byte
    requires |rgba| == FrameBytes && i < FramePixels && k < 4
  {
    rgba[4 * i + k]
  }

  lemma PixelIndex(i: nat, k: nat)
    requires k < 4
    ensures (4 * i + k) / 4 == i && (4 * i + k) % 4 == k
  {
  }

  /** Byte-wise agreement with RgbaByte, read pixel by pixel. */
  lemma PixelsOf(data: seq<byte>, rgba: seq<byte>)
    requires |rgba| == FrameBytes
    requires forall p :: 0 <= p < FrameBytes ==> rgba[p] == RgbaByte(data, p)
    ensures forall i, k :: 0 <= i < FramePixels && 0 <= k < 3 ==>
      Channel(rgba, i, k) == Sample(data, 3 * i + k)
    ensures forall i :: 0 <= i < FramePixels ==> Channel(rgba, i, 3) == 255
  {
    forall i, k | 0 <= i < FramePixels && 0 <= k < 4
      ensures Channel(rgba, i, k) == if k == 3 then 255 else Sample(data, 3 * i + k)
    {
      PixelIndex(i, k);
    }
  }

  /** The conversion loop of processVideoFrame, over a fresh array. */
  method ProcessVideoFrame(data: seq<byte>) returns (rgba: seq<byte>)
    ensures |rgba| == FrameBytes
    ensures rgba == RgbToRgba(data)
    ensures forall i, k :: 0 <= i < FramePixels && 0 <= k < 3 ==>
      Channel(rgba, i, k) == Sample(data, 3 * i + k)
    ensures forall i :: 0 <= i < FramePixels ==> Channel(rgba, i, 3) == 255
  {
    var out := new byte[FrameBytes];
    var i := 0;
    while i < FramePixels
      invariant 0 <= i <= FramePixels
      invariant forall p :: 0 <= p < 4 * i ==> out[p] == RgbaByte(data, p)
    {
      PixelIndex(i, 0);
      PixelIndex(i, 1);
      PixelIndex(i, 2);
      PixelIndex(i, 3);
      out[4 * i + 0] := Sample(data, 3 * i + 0);
      out[4 * i + 1] := Sample(data, 3 * i + 1);
      out[4 * i + 2] := Sample(data, 3 * i + 2);
      out[4 * i + 3] := 255;
      i := i + 1;
    }
    rgba := out[..];
    assert forall p :: 0 <= p < FrameBytes ==> rgba[p] == RgbToRgba(data)[p];
  }
}
