/** The static helpers of Hyphaeizer/Util.cs: perceptual luminance of an RGB
    colour and the sum of a range of a byte array. */
module Util {

  datatype Option<T> = None | Some(value: T)

  /** C#'s `byte`. */
  newtype byte = b: int | 0 <= b < 256

  /** The part of `System.Drawing.Color` the core reads: its three 8-bit channels. */
  datatype Color = Color(R: byte, G: byte, B: byte)

  /** `GetLuminance(byte R, byte G, byte B)`: 0.3 R + 0.59 G + 0.11 B, in exact arithmetic. */
  function GetLuminance(R: byte, G: byte, B: byte): (l: real)
    ensures 0.0 <= l <= 255.0
    ensures R == G && G == B ==> l == R as real
  {
    R as real * 0.3 + G as real * 0.59 + B as real * 0.11
  }

  /** `GetLuminance(Color)`: delegates to the byte overload. */
  function GetLuminanceOfColor(c: Color): (l: real)
    ensures 0.0 <= l <= 255.0
    ensures c.R == c.G && c.G == c.B ==> l == c.R as real
  {
    GetLuminance(c.R, c.G, c.B)
  }

  /** Luminance grows with each channel. */
  lemma LuminanceMonotone(R: byte, G: byte, B: byte, R': byte, G': byte, B': byte)
    requires R <= R' && G <= G' && B <= B'
    ensures GetLuminance(R, G, B) <= GetLuminance(R', G', B')
    ensures GetLuminance(R, G, B) == GetLuminance(R', G', B') <==> R == R' && G == G' && B == B'
  {
  }

  const TwoTo31: int := 0x8000_0000
  const TwoTo32: int := 0x1_0000_0000

  /** The value a C# `int` (32-bit two's complement, unchecked) holds after an
      assignment of the mathematical integer `x`. */
  function Wrap32(x: int): (r: int)
    ensures -TwoTo31 <= r < TwoTo31
    ensures (x - r) % TwoTo32 == 0
    ensures -TwoTo31 <= x < TwoTo31 ==> r == x
  {
    (x + TwoTo31) % TwoTo32 - TwoTo31
  }

  /** Adding after wrapping is the same as wrapping the exact sum. */
  lemma Wrap32Add(a: int, b: int)
    ensures Wrap32(Wrap32(a) + b) == Wrap32(a + b)
  {
    var k := (a + TwoTo31) / TwoTo32;
    assert Wrap32(a) == a - k * TwoTo32;
    assert (a + b + TwoTo31) - k * TwoTo32 == Wrap32(a) + b + TwoTo31;
    ModShift(a + b + TwoTo31, k);
  }

  lemma ModShift(x: int, k: int)
    ensures (x - k * TwoTo32) % TwoTo32 == x % TwoTo32
  {
  }

  /** The exact sum of a sequence of bytes. */
  function Sum(s: seq<byte>): (r: int)
    ensures 0 <= r <= 255 * |s|
  {
    if s == [] then 0 else Sum(s[..|s| - 1]) + s[|s| - 1] as int
  }

  /** The `end` bound `SumByteArray` actually uses: the default -1 stands for
      `Length - 1`, which leaves the last element out. */
  function EffectiveEnd(length: int, end: int): (e: int)
    ensures end == -1 ==> e == length - 1
    ensures end != -1 ==> e == end
  {
    if end == -1 then length - 1 else end
  }

  /** `SumByteArray(arr, begin, end)`: the 32-bit sum of `arr[begin..end)`,
      with `end` replaced by `EffectiveEnd`. The source indexes the array in
      the loop, so a non-empty range must lie inside the array. */
  method SumByteArray(arr: array<byte>, begin: int := 0, end: int := -1) returns (sum: int)
    requires begin < EffectiveEnd(arr.Length, end) ==> 0 <= begin && EffectiveEnd(arr.Length, end) <= arr.Length
    ensures var e := EffectiveEnd(arr.Length, end);
      begin < e ==> sum == Wrap32(Sum(arr[begin..e]))
    ensures begin >= EffectiveEnd(arr.Length, end) ==> sum == 0
    ensures var e := EffectiveEnd(arr.Length, end);
      begin < e && 255 * (e - begin) < TwoTo31 ==> 0 <= sum <= 255 * (e - begin)
  {
    var stop := end;
    if stop == -1 {
      stop := arr.Length - 1;
    }
    sum := 0;
    var i := begin;
    while i < stop
      invariant begin < stop ==> begin <= i <= stop
      invariant begin >= stop ==> i == begin
      invariant begin < stop ==> sum == Wrap32(Sum(arr[begin..i]))
      invariant begin >= stop ==> sum == 0
    {
      Wrap32Add(Sum(arr[begin..i]), arr[i] as int);
      assert arr[begin..i + 1][..i - begin] == arr[begin..i];
      sum := Wrap32(sum + arr[i] as int);
      i := i + 1;
    }
  }
}
