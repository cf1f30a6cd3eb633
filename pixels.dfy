/** Colour channels and the floating-point accumulator pixel of
    Hyphaeizer/Simulator.cs (`ChannelFlags`, `Pixel`). Channel values are
    modelled as exact reals, not as `float`. */
module Pixels {
  import opened Util

  /** `[Flags] enum ChannelFlags`: an `int`-backed bit mask. */
  type ChannelFlags = bv32

  const None: ChannelFlags := 0
  const Red: ChannelFlags := 1
  const Green: ChannelFlags := 2
  const Blue: ChannelFlags := 4
  const All: ChannelFlags := 7

  /** `Enum.HasFlag`: every bit of `flag` is set in `flags`. */
  predicate HasFlag(flags: ChannelFlags, flag: ChannelFlags) {
    flags & flag == flag
  }

  datatype Pixel = Pixel(R: real, G: real, B: real) {

    /** `operator +`: component-wise sum. */
    function Plus(other: Pixel): (p: Pixel)
      ensures p.R - other.R == R && p.G - other.G == G && p.B - other.B == B
      ensures other == Black ==> p == this
    {
      Pixel(R + other.R, G + other.G, B + other.B)
    }

    /** `operator -`: component-wise difference. */
    function Minus(other: Pixel): (p: Pixel)
      ensures other == Black ==> p == this
    {
      Pixel(R - other.R, G - other.G, B - other.B)
    }

    /** `Luminance`: 0.3 R + 0.59 G + 0.11 B. */
    function Luminance(): (l: real)
      ensures R == G && G == B ==> l == R
      ensures 0.0 <= R && 0.0 <= G && 0.0 <= B ==> 0.0 <= l <= Max3(R, G, B)
    {
      R * 0.3 + G * 0.59 + B * 0.11
    }
  }

  function Max3(a: real, b: real, c: real): real {
    if a >= b && a >= c then a else if b >= c then b else c
  }

  /** `default(Pixel)`: every channel 0. */
  const Black: Pixel := Pixel(0.0, 0.0, 0.0)

  /** `new Pixel(all)`: the same value in every channel. */
  function Grey(all: real): (p: Pixel)
    ensures p.R == all && p.G == all && p.B == all
    ensures p.Luminance() == all
  {
    Pixel(all, all, all)
  }

  /** `new Pixel(all, flags)`: `all` in the channels whose flag is set, 0 in the others. */
  function Masked(all: real, flags: ChannelFlags): (p: Pixel)
    ensures flags & Red != 0 ==> p.R == all
    ensures flags & Red == 0 ==> p.R == 0.0
    ensures flags & Green != 0 ==> p.G == all
    ensures flags & Green == 0 ==> p.G == 0.0
    ensures flags & Blue != 0 ==> p.B == all
    ensures flags & Blue == 0 ==> p.B == 0.0
  {
    Pixel(
      if HasFlag(flags, Red) then all else 0.0,
      if HasFlag(flags, Green) then all else 0.0,
      if HasFlag(flags, Blue) then all else 0.0)
  }

  /** With every flag set the masked pixel is grey; with none it is black;
      a zero amount is black whatever the mask. */
  lemma MaskedExtremes(all: real, flags: ChannelFlags)
    ensures Masked(all, All) == Grey(all)
    ensures Masked(all, None) == Black
    ensures Masked(0.0, flags) == Black
    ensures Masked(all, Red).Luminance() == 0.3 * all
  {
  }

  /** Masking is linear in the amount, so deposits with one mask add up. */
  lemma MaskedAdds(a: real, b: real, flags: ChannelFlags)
    ensures Masked(a, flags).Plus(Masked(b, flags)) == Masked(a + b, flags)
  {
    var r, g, bl := HasFlag(flags, Red), HasFlag(flags, Green), HasFlag(flags, Blue);
    assert Masked(a, flags) == Pixel(if r then a else 0.0, if g then a else 0.0, if bl then a else 0.0);
    assert Masked(b, flags) == Pixel(if r then b else 0.0, if g then b else 0.0, if bl then b else 0.0);
  }

  /** Addition of pixels is commutative and associative, and `Black` is its unit. */
  lemma PlusLaws(p: Pixel, q: Pixel, s: Pixel)
    ensures p.Plus(q) == q.Plus(p)
    ensures p.Plus(q).Plus(s) == p.Plus(q.Plus(s))
    ensures p.Plus(Black) == p && Black.Plus(p) == p
    ensures p.Plus(q).Minus(q) == p
  {
  }

  /** Luminance is linear, so total luminance is conserved by addition. */
  lemma LuminanceAdds(p: Pixel, q: Pixel)
    ensures p.Plus(q).Luminance() == p.Luminance() + q.Luminance()
  {
  }

  /** One colour channel, with its flag. */
  datatype Channel = RedChannel | GreenChannel | BlueChannel {
    function Flag(): ChannelFlags {
      match this
      case RedChannel => Red
      case GreenChannel => Green
      case BlueChannel => Blue
    }

    /** The value of this channel in `p`. */
    function Of(p: Pixel): real {
      match this
      case RedChannel => p.R
      case GreenChannel => p.G
      case BlueChannel => p.B
    }
  }

  /** Channel by channel: a masked pixel carries `all` exactly in the allowed
      channels, and sums are taken channel by channel. */
  lemma ChannelValues(ch: Channel, all: real, flags: ChannelFlags, p: Pixel, q: Pixel)
    ensures ch.Of(Masked(all, flags)) == if HasFlag(flags, ch.Flag()) then all else 0.0
    ensures ch.Of(p.Plus(q)) == ch.Of(p) + ch.Of(q)
    ensures ch.Of(Black) == 0.0
  {
  }

  /** The pixel and the byte-triple formulas of luminance agree
      (Simulator.cs `Luminance`, Util.cs `GetLuminance`). */
  lemma LuminanceAgrees(c: Color)
    ensures Pixel(c.R as real, c.G as real, c.B as real).Luminance() == GetLuminanceOfColor(c)
  {
  }
}
