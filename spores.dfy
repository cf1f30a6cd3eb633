/** The current spore design of Hyphaeizer/Spores.cs: a spore that steps
    along its heading, turns back and is clamped at the edges of the image,
    and deposits ink by a bilinear splat. A `BlindSpore` nudges its heading
    at random; a `SightedSpore` also follows the luminance of an overlay
    image and slows down on bright pixels. The abstract class and its two
    subclasses are one class here, told apart by a `Variant` tag. */
module Spores {
  import opened Util
  import opened Pixels
  import opened Context
  import opened Canvas

  datatype Variant = Blind | Sighted

  /** What a spore holds besides its `sim` reference. */
  datatype SporeState = SporeState(x: real, y: real, angle: real, speed: real, mask: ChannelFlags)

  // ---------------------------------------------------------------- Move

  /** The position after one step of `speed` along the heading, before the
      edge rules apply. */
  function Step(s: SporeState, trig: Trig): (real, real) {
    (s.x + s.speed * trig.cos(s.angle), s.y + s.speed * trig.sin(s.angle))
  }

  /** The clamp of `Move` as written: negative coordinates become 0, then
      an X at or past the width becomes `width - 1`, and only otherwise a Y
      at or past the height becomes `height - 1`. */
  function ClampXY(sx: real, sy: real, width: int, height: int): (c: (real, real))
    ensures 0.0 <= sx < width as real ==> c.0 == sx
    ensures sx < 0.0 && 0 < width ==> c.0 == 0.0
    ensures sx >= width as real ==> c.0 == (width - 1) as real
    ensures 0.0 <= sy < height as real ==> c.1 == sy
    ensures sy < 0.0 && 0 < height ==> c.1 == 0.0
    ensures 0 < width && sx < width as real && sy >= height as real ==> c.1 == (height - 1) as real
    ensures 0 <= height && sx >= width as real && sy >= height as real ==> c.1 == sy
    ensures 0 < width && 0 < height ==>
      (InGrid(c.0, c.1, width, height) <==> !(sx >= width as real && sy >= height as real))
  {
    var x := if sx < 0.0 then 0.0 else sx;
    var y := if sy < 0.0 then 0.0 else sy;
    if x >= width as real then ((width - 1) as real, y)
    else if y >= height as real then (x, (height - 1) as real)
    else (x, y)
  }

  /** The state after `Move`. */
  function Moved(s: SporeState, trig: Trig, width: int, height: int): (t: SporeState)
    ensures t.speed == s.speed && t.mask == s.mask
    ensures (t.x, t.y) == ClampXY(Step(s, trig).0, Step(s, trig).1, width, height)
  {
    var (sx, sy) := Step(s, trig);
    var (cx, cy) := ClampXY(sx, sy, width, height);
    SporeState(cx, cy, if InGrid(sx, sy, width, height) then s.angle else s.angle + PI, s.speed, s.mask)
  }

  /** The heading turns by exactly pi when, and only when, the step left
      the grid on some axis; otherwise it does not change. */
  lemma MoveReflects(s: SporeState, trig: Trig, width: int, height: int)
    ensures var t := Moved(s, trig, width, height);
      (t.angle - s.angle == PI <==> !InGrid(Step(s, trig).0, Step(s, trig).1, width, height)) &&
      (t.angle == s.angle <==> InGrid(Step(s, trig).0, Step(s, trig).1, width, height))
  {
  }

  /** After `Move` on a non-empty grid the spore is in the grid except when
      the step passed both the right and the bottom edge. */
  lemma MoveLandsInGrid(s: SporeState, trig: Trig, width: int, height: int)
    requires 0 < width && 0 < height
    ensures var t := Moved(s, trig, width, height);
      var (sx, sy) := Step(s, trig);
      InGrid(t.x, t.y, width, height) <==> !(sx >= width as real && sy >= height as real)
  {
  }

  /** A spore in the bottom-right cell of a 4 x 4 grid, stepping 0.15 right
      and 0.15 down, is left at (3, 4.05), outside the grid, so the next
      `MakeColor` would index row 4. */
  lemma CornerEscape()
    ensures var s := SporeState(3.9, 3.9, 0.0, 0.2, All);
      var t := Moved(s, Trig(a => 0.75, a => 0.75), 4, 4);
      InGrid(s.x, s.y, 4, 4) && t.x == 3.0 && t.y == 4.05 && !InGrid(t.x, t.y, 4, 4)
  {
    var trig := Trig(a => 0.75, a => 0.75);
    assert Step(SporeState(3.9, 3.9, 0.0, 0.2, All), trig) == (4.05, 4.05);
  }

  /** The clamp with `if` in place of `else if`: both axes are clamped
      independently. */
  function ClampIntended(sx: real, sy: real, width: int, height: int): (c: (real, real))
    ensures 0 < width && 0 < height ==> InGrid(c.0, c.1, width, height)
    ensures 0 < width && 0 < height && !(sx >= width as real && sy >= height as real) ==> c == ClampXY(sx, sy, width, height)
  {
    var x := if sx < 0.0 then 0.0 else sx;
    var y := if sy < 0.0 then 0.0 else sy;
    (if x >= width as real then (width - 1) as real else x,
     if y >= height as real then (height - 1) as real else y)
  }

  // ------------------------------------------------------ the overlay

  /** The overlay `System.Drawing.Bitmap`: its size and its colours. */
  datatype Bitmap = Bitmap(Width: nat, Height: nat, pixel: (int, int) -> Color) {
    predicate Contains(x: int, y: int) {
      0 <= x < Width && 0 <= y < Height
    }

    function GetPixel(x: int, y: int): Color
      requires Contains(x, y)
    {
      pixel(x, y)
    }
  }

  /** `(byte)Util.GetLuminance(c)`: the luminance truncated to an integer. */
  function LuminanceWeight(c: Color): (w: int)
    ensures 0 <= w <= 255
    ensures w as real <= GetLuminanceOfColor(c) < w as real + 1.0
  {
    GetLuminanceOfColor(c).Floor
  }

  /** The weight of rows `[lo, hi)` of column `x`. */
  function ColumnSum(ovr: Bitmap, x: int, lo: int, hi: int): (r: int)
    requires 0 <= x < ovr.Width && 0 <= lo <= hi <= ovr.Height
    ensures 0 <= r <= 255 * (hi - lo)
    decreases hi - lo
  {
    if hi == lo then 0 else ColumnSum(ovr, x, lo, hi - 1) + LuminanceWeight(ovr.GetPixel(x, hi - 1))
  }

  /** The weight of columns `[lo, hi)` of row `y`. */
  function RowSum(ovr: Bitmap, y: int, lo: int, hi: int): (r: int)
    requires 0 <= y < ovr.Height && 0 <= lo <= hi <= ovr.Width
    ensures 0 <= r <= 255 * (hi - lo)
    decreases hi - lo
  {
    if hi == lo then 0 else RowSum(ovr, y, lo, hi - 1) + LuminanceWeight(ovr.GetPixel(hi - 1, y))
  }

  lemma {:induction false} ColumnSumSplit(ovr: Bitmap, x: int, lo: int, mid: int, hi: int)
    requires 0 <= x < ovr.Width && 0 <= lo <= mid <= hi <= ovr.Height
    ensures ColumnSum(ovr, x, lo, hi) == ColumnSum(ovr, x, lo, mid) + ColumnSum(ovr, x, mid, hi)
    decreases hi - mid
  {
    if hi > mid {
      ColumnSumSplit(ovr, x, lo, mid, hi - 1);
    }
  }

  lemma {:induction false} RowSumSplit(ovr: Bitmap, y: int, lo: int, mid: int, hi: int)
    requires 0 <= y < ovr.Height && 0 <= lo <= mid <= hi <= ovr.Width
    ensures RowSum(ovr, y, lo, hi) == RowSum(ovr, y, lo, mid) + RowSum(ovr, y, mid, hi)
    decreases hi - mid
  {
    if hi > mid {
      RowSumSplit(ovr, y, lo, mid, hi - 1);
    }
  }

  /** The four direction weights of a sighted spore, in the order
      North, South, West, East. */
  datatype Weights = Weights(n: int, s: int, w: int, e: int)

  /** North: the rows above the spore in its column; South: its row and
      those below; West: the columns left of it in its row; East: its
      column and those to the right. */
  function OverlayWeights(ovr: Bitmap, xf: int, yf: int): (wts: Weights)
    requires ovr.Contains(xf, yf)
    ensures 0 <= wts.n && 0 <= wts.s && 0 <= wts.w && 0 <= wts.e
  {
    Weights(ColumnSum(ovr, xf, 0, yf), ColumnSum(ovr, xf, yf, ovr.Height),
            RowSum(ovr, yf, 0, xf), RowSum(ovr, yf, xf, ovr.Width))
  }

  /** North and South together weigh the spore's whole column, West and
      East its whole row. */
  lemma WeightsCoverLines(ovr: Bitmap, xf: int, yf: int)
    requires ovr.Contains(xf, yf)
    ensures var wts := OverlayWeights(ovr, xf, yf);
      wts.n + wts.s == ColumnSum(ovr, xf, 0, ovr.Height) &&
      wts.w + wts.e == RowSum(ovr, yf, 0, ovr.Width)
  {
    ColumnSumSplit(ovr, xf, 0, yf, ovr.Height);
    RowSumSplit(ovr, yf, 0, xf, ovr.Width);
  }

  // ------------------------------------------------- direction choice

  datatype Direction = North | South | West | East

  /** The entries of the `values` array, in array order. */
  function DirectionAt(k: nat): Direction
    requires k < 4
  {
    [North, South, West, East][k]
  }

  function WeightAt(wts: Weights, k: nat): int
    requires k < 4
  {
    [wts.n, wts.s, wts.w, wts.e][k]
  }

  /** The weight of the first `k` entries. */
  function Cum(wts: Weights, k: nat): (c: int)
    requires k <= 4
  {
    if k == 0 then 0 else Cum(wts, k - 1) + WeightAt(wts, k - 1)
  }

  lemma CumValues(wts: Weights)
    ensures Cum(wts, 1) == wts.n
    ensures Cum(wts, 2) == wts.n + wts.s
    ensures Cum(wts, 3) == wts.n + wts.s + wts.w
    ensures Cum(wts, 4) == TotalWeight(wts)
  {
    assert Cum(wts, 1) == wts.n;
    assert Cum(wts, 2) == wts.n + wts.s;
    assert Cum(wts, 3) == wts.n + wts.s + wts.w;
  }

  function TotalWeight(wts: Weights): int {
    wts.n + wts.s + wts.w + wts.e
  }

  /** `values.First(t => (r -= t.Item1) <= 0)`, searching from entry `k`:
      the index of the first entry whose cumulative weight reaches `r`, or
      `None` where `First` throws. */
  function FirstReaching(wts: Weights, r: int, k: nat := 0): (o: Option<nat>)
    requires k <= 4
    ensures o.Some? ==> k <= o.value < 4 && r <= Cum(wts, o.value + 1)
    ensures o.Some? ==> forall j: nat :: k < j <= o.value ==> Cum(wts, j) < r
    ensures o.None? ==> forall j: nat :: k < j <= 4 ==> Cum(wts, j) < r
    decreases 4 - k
  {
    if k == 4 then None
    else if r - Cum(wts, k + 1) <= 0 then Some(k)
    else FirstReaching(wts, r, k + 1)
  }

  /** With `r` at most the total weight the search never throws. */
  lemma SearchSucceeds(wts: Weights, r: int)
    requires r <= TotalWeight(wts)
    ensures FirstReaching(wts, r).Some?
  {
    CumValues(wts);
  }

  /** `r = 0` always selects North, whatever North weighs. */
  lemma ZeroSelectsNorth(wts: Weights)
    requires 0 <= wts.n
    ensures FirstReaching(wts, 0) == Some(0)
  {
    CumValues(wts);
  }

  /** With non-negative weights, a draw `r > 0` selects entry `k` exactly
      when `Cum(k) < r <= Cum(k + 1)`: each entry but North is chosen for
      as many draws as it weighs, shifted up by one. */
  lemma SelectedByInterval(wts: Weights, r: int, k: nat)
    requires 0 <= wts.n && 0 <= wts.s && 0 <= wts.w && 0 <= wts.e
    requires 0 < r <= TotalWeight(wts) && k < 4
    ensures FirstReaching(wts, r) == Some(k) <==> Cum(wts, k) < r <= Cum(wts, k + 1)
  {
    CumMonotone(wts);
    SearchSucceeds(wts, r);
  }

  lemma CumMonotone(wts: Weights)
    requires 0 <= wts.n && 0 <= wts.s && 0 <= wts.w && 0 <= wts.e
    ensures forall i: nat, j: nat :: i <= j <= 4 ==> Cum(wts, i) <= Cum(wts, j)
  {
    CumValues(wts);
  }

  /** With North weighing nothing and `r = 0`, North is still selected. */
  lemma ZeroWeightSelected()
    ensures var wts := Weights(0, 5, 0, 0);
      FirstReaching(wts, 0) == Some(0) && WeightAt(wts, 0) == 0 && 0 < TotalWeight(wts)
  {
    ZeroSelectsNorth(Weights(0, 5, 0, 0));
  }

  /** The weighted choice `First` is evidently meant to make: the first
      entry whose cumulative weight exceeds `r`. */
  function WeightedPick(wts: Weights, r: int, k: nat := 0): (o: Option<nat>)
    requires k <= 4
    ensures o.Some? ==> k <= o.value < 4 && r < Cum(wts, o.value + 1)
    ensures o.Some? ==> forall j: nat :: k < j <= o.value ==> Cum(wts, j) <= r
    ensures o.None? ==> forall j: nat :: k < j <= 4 ==> Cum(wts, j) <= r
    decreases 4 - k
  {
    if k == 4 then None
    else if r - Cum(wts, k + 1) < 0 then Some(k)
    else WeightedPick(wts, r, k + 1)
  }

  /** For `0 <= r < total` and non-negative weights, `WeightedPick` selects
      entry `k` exactly for the `WeightAt(k)` draws in `[Cum(k), Cum(k + 1))`,
      so a direction that weighs nothing is never selected. */
  lemma WeightedPickIsProportional(wts: Weights, r: int, k: nat)
    requires 0 <= wts.n && 0 <= wts.s && 0 <= wts.w && 0 <= wts.e
    requires 0 <= r < TotalWeight(wts) && k < 4
    ensures WeightedPick(wts, r).Some?
    ensures WeightedPick(wts, r) == Some(k) <==> Cum(wts, k) <= r < Cum(wts, k + 1)
    ensures WeightedPick(wts, r) == Some(k) ==> 0 < WeightAt(wts, k)
  {
    CumMonotone(wts);
    CumValues(wts);
  }

  /** The corrected choice, keeping the fallback the code as written has
      when every direction weighs nothing: then the draw is 0 and North is
      taken, exactly as `FirstReaching` does; otherwise `WeightedPick`. */
  function IntendedPick(wts: Weights, r: int): (k: nat)
    requires 0 <= wts.n && 0 <= wts.s && 0 <= wts.w && 0 <= wts.e
    requires 0 <= r && (r < TotalWeight(wts) || r == 0)
    ensures k < 4
    ensures TotalWeight(wts) == 0 ==> k == 0 && FirstReaching(wts, r) == Some(k)
    ensures 0 < TotalWeight(wts) ==>
      WeightedPick(wts, r) == Some(k) && Cum(wts, k) <= r < Cum(wts, k + 1) && 0 < WeightAt(wts, k)
  {
    if TotalWeight(wts) == 0 then
      ZeroSelectsNorth(wts);
      0
    else
      WeightedPickIsProportional(wts, r, 0);
      var k := WeightedPick(wts, r).value;
      WeightedPickIsProportional(wts, r, k);
      k
  }

  /** `values.First(...)` with the decrement of `r` as a loop. */
  method SelectDirection(values: Weights, r: int) returns (d: Direction)
    requires r <= TotalWeight(values)
    ensures FirstReaching(values, r).Some? && d == DirectionAt(FirstReaching(values, r).value)
  {
    CumValues(values);
    var k := 0;
    var rest := r - WeightAt(values, 0);
    while rest > 0
      invariant 0 <= k < 4
      invariant rest == r - Cum(values, k + 1)
      invariant FirstReaching(values, r) == FirstReaching(values, r, k)
      decreases 3 - k
    {
      k := k + 1;
      rest := rest - WeightAt(values, k);
    }
    d := DirectionAt(k);
  }

  /** The heading the `switch` snaps to. */
  function Heading(d: Direction): (a: real)
    ensures 0.0 <= a < 2.0 * PI
  {
    match d
    case North => 3.0 * PI / 2.0
    case South => PI / 2.0
    case West => PI
    case East => 0.0
  }

  /** The heading a resampling sighted spore snaps to for the draw `u` of
      `sim.rng.Next(totalWeight)`. */
  function SnappedHeading(ovr: Bitmap, xf: int, yf: int, u: Sample): (a: real)
    requires ovr.Contains(xf, yf)
    ensures a in {3.0 * PI / 2.0, PI / 2.0, PI, 0.0}
  {
    var wts := OverlayWeights(ovr, xf, yf);
    var r := IntDraw(u, 0, TotalWeight(wts));
    SearchSucceeds(wts, r);
    Heading(DirectionAt(FirstReaching(wts, r).value))
  }

  /** The tick indices on which a sighted spore recomputes its direction:
      the first, and every one whose successor is a multiple of 50. */
  predicate Resamples(iterationCounter: int) {
    iterationCounter == 0 || (iterationCounter + 1) % 50 == 0
  }

  lemma ResampleSchedule(t: nat)
    ensures Resamples(t) <==> t == 0 || t % 50 == 49
    ensures Resamples(49) && Resamples(99) && !Resamples(1) && !Resamples(50)
  {
  }

  // ---------------------------------------------------------- speed

  /** The speed after one `DecideAngle` of a sighted spore that stands on a
      pixel of luminance `lum`: a non-negative speed drops by `lum / 100000`
      and is floored at 0; a negative one is kept. */
  function SpeedAfter(speed: real, lum: real): (v: real)
    ensures speed < 0.0 ==> v == speed
    ensures speed >= 0.0 ==> 0.0 <= v
    ensures speed >= 0.0 && 0.0 <= lum ==> v <= speed
    ensures speed >= 0.0 && speed >= lum / 100000.0 ==> v == speed - lum / 100000.0
    ensures speed >= 0.0 && speed < lum / 100000.0 ==> v == 0.0
  {
    if speed >= 0.0 then
      var v := speed - lum / 100000.0;
      if v < 0.0 then 0.0 else v
    else speed
  }

  /** The speed after a run of ticks on pixels of luminances `lums`. */
  function SpeedAfterAll(speed: real, lums: seq<real>): real
    decreases |lums|
  {
    if lums == [] then speed else SpeedAfterAll(SpeedAfter(speed, lums[0]), lums[1..])
  }

  /** Over any run of ticks the speed never grows and a non-negative speed
      never becomes negative; a negative speed stays as it is. */
  lemma {:induction false} SpeedDecays(speed: real, lums: seq<real>)
    requires forall i :: 0 <= i < |lums| ==> 0.0 <= lums[i]
    ensures speed >= 0.0 ==> 0.0 <= SpeedAfterAll(speed, lums) <= speed
    ensures speed < 0.0 ==> SpeedAfterAll(speed, lums) == speed
    decreases |lums|
  {
    if lums != [] {
      SpeedDecays(SpeedAfter(speed, lums[0]), lums[1..]);
    }
  }

  /** `Split()` of either variant: the constructor resets the speed to the
      configured value. */
  function SplitState(s: SporeState, config: Config): (c: SporeState)
    ensures c.x == s.x && c.y == s.y && c.mask == s.mask
    ensures c.angle - s.angle == PI / 8.0
    ensures c.speed == config.speed
  {
    SporeState(s.x, s.y, s.angle + PI / 8.0, config.speed, s.mask)
  }

  // ---------------------------------------------------------- the class

  /** `Simulator.Spore`, `BlindSpore` and `SightedSpore`. */
  class Spore {
    const variant: Variant
    var X: real
    var Y: real
    var Angle: real
    var Speed: real
    var AllowedChannels: ChannelFlags

    function State(): SporeState
      reads this
    {
      SporeState(X, Y, Angle, Speed, AllowedChannels)
    }

    /** `new BlindSpore(...)` or `new SightedSpore(...)`: the speed starts
        at `config.speed`. */
    constructor (config: Config, variant: Variant, x: real, y: real, angle: real, allowedChannels: ChannelFlags := All)
      ensures this.variant == variant
      ensures State() == SporeState(x, y, angle, config.speed, allowedChannels)
    {
      this.variant := variant;
      X, Y := x, y;
      Angle := angle;
      AllowedChannels := allowedChannels;
      Speed := config.speed;
    }

    /** `Move()`; `img` stands for `sim.image`. */
    method Move(img: SimulatedImage, trig: Trig)
      modifies this
      ensures State() == Moved(old(State()), trig, img.width, img.height)
    {
      ghost var s0 := State();
      X := X + Speed * trig.cos(Angle);
      Y := Y + Speed * trig.sin(Angle);
      ghost var sx, sy := X, Y;

      if X < 0.0 || X >= img.width as real || Y < 0.0 || Y >= img.height as real {
        Angle := Angle + PI;
      }

      if X < 0.0 { X := 0.0; }
      if Y < 0.0 { Y := 0.0; }
      if X >= img.width as real {
        X := (img.width - 1) as real;
      } else if Y >= img.height as real {
        Y := (img.height - 1) as real;
      }
      MovedComponents(s0, trig, img.width, img.height, sx, sy);
    }

    /** `MakeColor()`: the bilinear splat at the spore's position. The floor
        indices are never wrapped, so the position must be in the grid. */
    method MakeColor(config: Config, img: SimulatedImage)
      requires img.Valid() && InGrid(X, Y, img.width, img.height)
      modifies img.data
      ensures forall i, j :: img.Contains(i, j) ==>
        img.data[i, j] == old(img.data[i, j]).Plus(AddedAt(Splat(X, Y, img.width, img.height, config.penIntensity, AllowedChannels), i, j))
    {
      img.DepositSplat(X, Y, config.penIntensity, AllowedChannels);
    }

    /** `BlindSpore.DecideAngle()`: a random nudge from the class-wide `rng`. */
    method DecideAngleBlind(config: Config, rng: Random)
      requires variant == Blind
      modifies this, rng
      ensures State() == old(State()).(angle := old(Angle) + Nudge(rng.samples(old(rng.calls)), config.angleChangeModifier))
      ensures rng.calls == old(rng.calls) + 1
    {
      var u := rng.NextDouble();
      Angle := Angle + (u - 0.5) * config.angleChangeModifier;
    }

    /** `SightedSpore.DecideAngle()`. `iterationCounter` is the current tick,
        `ovr` the overlay, `simRng` the simulator's `rng` and `rng` the
        class-wide one. The overlay is read at the spore's cell whenever
        the spore resamples or its speed is non-negative. */
    method DecideAngleSighted(config: Config, rng: Random, simRng: Random, ovr: Bitmap, iterationCounter: int)
      requires variant == Sighted
      requires rng != simRng
      requires Resamples(iterationCounter) || Speed >= 0.0 ==> ovr.Contains(X.Floor, Y.Floor)
      modifies this, rng, simRng
      ensures X == old(X) && Y == old(Y) && AllowedChannels == old(AllowedChannels)
      ensures Resamples(iterationCounter) ==>
        Angle - SnappedHeading(ovr, X.Floor, Y.Floor, simRng.samples(old(simRng.calls))) ==
        Nudge(rng.samples(old(rng.calls)), config.angleChangeModifier)
      ensures !Resamples(iterationCounter) ==>
        Angle - old(Angle) == Nudge(rng.samples(old(rng.calls)), config.angleChangeModifier)
      ensures simRng.calls == old(simRng.calls) + (if Resamples(iterationCounter) then 1 else 0)
      ensures rng.calls == old(rng.calls) + 1
      ensures old(Speed) >= 0.0 ==> Speed == SpeedAfter(old(Speed), GetLuminanceOfColor(ovr.GetPixel(X.Floor, Y.Floor)))
      ensures old(Speed) < 0.0 ==> Speed == old(Speed)
    {
      var xf, yf := X.Floor, Y.Floor;

      if iterationCounter == 0 || (iterationCounter + 1) % 50 == 0 {
        Angle := ChooseHeading(ovr, xf, yf, simRng);
      }

      if Speed >= 0.0 {
        Speed := Speed - GetLuminanceOfColor(ovr.GetPixel(xf, yf)) / 100000.0;
        if Speed < 0.0 {
          Speed := 0.0;
        }
      }

      var u := rng.NextDouble();
      Angle := Angle + Nudge(u, config.angleChangeModifier);
    }

    /** `Split()`: a new spore of the same variant; the parent is not changed. */
    method Split(config: Config) returns (child: Spore)
      ensures fresh(child)
      ensures child.variant == variant
      ensures child.State() == SplitState(State(), config)
    {
      child := new Spore(config, variant, X, Y, Angle + PI / 8.0, AllowedChannels);
    }
  }

  lemma MovedComponents(s: SporeState, trig: Trig, width: int, height: int, sx: real, sy: real)
    requires sx == s.x + s.speed * trig.cos(s.angle)
    requires sy == s.y + s.speed * trig.sin(s.angle)
    ensures Moved(s, trig, width, height) ==
      SporeState(ClampXY(sx, sy, width, height).0, ClampXY(sx, sy, width, height).1,
                 if InGrid(sx, sy, width, height) then s.angle else s.angle + PI, s.speed, s.mask)
  {
  }

  /** The resampling block of `SightedSpore.DecideAngle`: the four weight
      loops, the draw from `simRng`, the `First` search and the `switch`. */
  method ChooseHeading(ovr: Bitmap, xf: int, yf: int, simRng: Random) returns (angle: real)
    requires ovr.Contains(xf, yf)
    modifies simRng
    ensures angle == SnappedHeading(ovr, xf, yf, simRng.samples(old(simRng.calls)))
    ensures simRng.calls == old(simRng.calls) + 1
  {
    var values := SumWeights(ovr, xf, yf);
    var totalWeight := values.n + values.s + values.w + values.e;
    ghost var u := simRng.samples(simRng.calls);
    var r := simRng.Next(0, totalWeight);
    var selectedDirection := SelectDirection(values, r);
    angle := Heading(selectedDirection);
    assert angle == SnappedHeading(ovr, xf, yf, u);
  }

  /** The four sums `ChooseHeading` weighs the directions by. */
  method SumWeights(ovr: Bitmap, xf: int, yf: int) returns (values: Weights)
    requires ovr.Contains(xf, yf)
    ensures values == OverlayWeights(ovr, xf, yf)
  {
    var nWeight := SumColumn(ovr, xf, 0, yf);
    var sWeight := SumColumn(ovr, xf, yf, ovr.Height);
    var wWeight := SumRow(ovr, yf, 0, xf);
    var eWeight := SumRow(ovr, yf, xf, ovr.Width);
    values := Weights(nWeight, sWeight, wWeight, eWeight);
  }

  /** One of the column loops of `SightedSpore.DecideAngle`. */
  method SumColumn(ovr: Bitmap, x: int, lo: int, hi: int) returns (weight: int)
    requires 0 <= x < ovr.Width && 0 <= lo <= hi <= ovr.Height
    ensures weight == ColumnSum(ovr, x, lo, hi)
  {
    weight := 0;
    for i := lo to hi
      invariant weight == ColumnSum(ovr, x, lo, i)
    {
      weight := weight + LuminanceWeight(ovr.GetPixel(x, i));
    }
  }

  /** One of the row loops of `SightedSpore.DecideAngle`. */
  method SumRow(ovr: Bitmap, y: int, lo: int, hi: int) returns (weight: int)
    requires 0 <= y < ovr.Height && 0 <= lo <= hi <= ovr.Width
    ensures weight == RowSum(ovr, y, lo, hi)
  {
    weight := 0;
    for i := lo to hi
      invariant weight == RowSum(ovr, y, lo, i)
    {
      weight := weight + LuminanceWeight(ovr.GetPixel(i, y));
    }
  }
}
