/** The older spore design nested in `Simulator` (Hyphaeizer/Simulator.cs:107-161):
    one kind of spore that wraps around the edges of the image instead of
    bouncing off them, and always moves at the configured speed. It and the
    `Simulator.Spore` of Hyphaeizer/Spores.cs cannot be built together; the
    generation loop of Simulator.cs drives this one. */
module LegacySpores {
  import opened Pixels
  import opened Context
  import opened Canvas
  import Arith

  /** What a legacy spore holds besides its `sim` reference. */
  datatype SporeState = SporeState(x: real, y: real, angle: real, mask: ChannelFlags)

  /** One axis of the wrap in `Tick`: a coordinate below 0 gains the
      size, and then one at or past the size loses it. */
  function Wrap(v: real, size: int): real {
    var a := if v < 0.0 then v + size as real else v;
    if a >= size as real then a - size as real else a
  }

  /** The wrap shifts by at most one size, leaves a coordinate inside the
      range alone, and brings one less than a size outside back inside. */
  lemma WrapCases(v: real, size: int)
    ensures var r := Wrap(v, size);
      (r == v || r == v + size as real || r == v - size as real) &&
      (0.0 <= v < size as real ==> r == v) &&
      (0 < size && -(size as real) <= v < 2.0 * size as real ==> 0.0 <= r < size as real)
  {
  }

  /** A move by `(dx, dy)`, wrapped on both axes, with the heading turned
      by `turn`. */
  function Advance(s: SporeState, dx: real, dy: real, turn: real, width: int, height: int): SporeState {
    SporeState(Wrap(s.x + dx, width), Wrap(s.y + dy, height), s.angle + turn, s.mask)
  }

  /** The state after `Tick`: the position after one step of
      `config.speed` along the heading, wrapped on both axes, and the
      heading nudged by the draw `u`. */
  function Ticked(s: SporeState, config: Config, trig: Trig, width: int, height: int, u: Sample): SporeState {
    Advance(s, config.speed * trig.cos(s.angle), config.speed * trig.sin(s.angle),
            Nudge(u, config.angleChangeModifier), width, height)
  }

  /** Each axis moves by the step, or by the step plus or minus the size:
      the spore lives on a torus. The heading turns by the nudge and the
      channels stay. */
  lemma TickIsTorusStep(s: SporeState, config: Config, trig: Trig, width: int, height: int, u: Sample)
    ensures var t := Ticked(s, config, trig, width, height, u);
      var dx, dy := config.speed * trig.cos(s.angle), config.speed * trig.sin(s.angle);
      (t.x - s.x == dx || t.x - s.x == dx + width as real || t.x - s.x == dx - width as real) &&
      (t.y - s.y == dy || t.y - s.y == dy + height as real || t.y - s.y == dy - height as real) &&
      t.angle - s.angle == Nudge(u, config.angleChangeModifier) && t.mask == s.mask
  {
    var dx, dy := config.speed * trig.cos(s.angle), config.speed * trig.sin(s.angle);
    var turn := Nudge(u, config.angleChangeModifier);
    assert Ticked(s, config, trig, width, height, u) == Advance(s, dx, dy, turn, width, height);
    AdvanceIsTorusStep(s, dx, dy, turn, width, height);
  }

  lemma AdvanceIsTorusStep(s: SporeState, dx: real, dy: real, turn: real, width: int, height: int)
    ensures var t := Advance(s, dx, dy, turn, width, height);
      (t.x - s.x == dx || t.x - s.x == dx + width as real || t.x - s.x == dx - width as real) &&
      (t.y - s.y == dy || t.y - s.y == dy + height as real || t.y - s.y == dy - height as real) &&
      t.angle - s.angle == turn && t.mask == s.mask
  {
    WrapCases(s.x + dx, width);
    WrapCases(s.y + dy, height);
  }

  /** A step shorter than the grid on each axis, from a position in the
      grid, ends in the grid after at most one wrap per axis. */
  lemma TickStaysInGrid(s: SporeState, config: Config, trig: Trig, width: int, height: int, u: Sample)
    requires InGrid(s.x, s.y, width, height)
    requires -(width as real) < config.speed * trig.cos(s.angle) < width as real
    requires -(height as real) < config.speed * trig.sin(s.angle) < height as real
    ensures var t := Ticked(s, config, trig, width, height, u); InGrid(t.x, t.y, width, height)
  {
    WrapCases(s.x + config.speed * trig.cos(s.angle), width);
    WrapCases(s.y + config.speed * trig.sin(s.angle), height);
  }

  /** With cosine and sine in [-1, 1] and a speed shorter than both sides,
      a tick from inside the grid ends inside the grid. */
  lemma TickInGrid(s: SporeState, config: Config, trig: Trig, width: int, height: int, u: Sample)
    requires InGrid(s.x, s.y, width, height) && Bounded(trig)
    requires -(width as real) < config.speed < width as real
    requires -(height as real) < config.speed < height as real
    ensures var t := Ticked(s, config, trig, width, height, u); InGrid(t.x, t.y, width, height)
  {
    Arith.ShortStep(config.speed, trig.cos(s.angle), width);
    Arith.ShortStep(config.speed, trig.sin(s.angle), height);
    TickStaysInGrid(s, config, trig, width, height, u);
  }

  /** `Split()`: same position and mask, heading turned by pi/8. */
  function SplitState(s: SporeState): (c: SporeState)
    ensures c.x == s.x && c.y == s.y && c.mask == s.mask
    ensures c.angle - s.angle == PI / 8.0
  {
    SporeState(s.x, s.y, s.angle + PI / 8.0, s.mask)
  }

  /** The two tests of `Tick` on one axis: below 0 gains the size, then at
      or past the size loses it. */
  method WrapInto(v: real, size: int) returns (r: real)
    ensures r == Wrap(v, size)
  {
    r := v;
    if r < 0.0 { r := r + size as real; }
    if r >= size as real { r := r - size as real; }
  }

  class Spore {
    var X: real
    var Y: real
    var Angle: real
    var AllowedChannels: ChannelFlags

    function State(): SporeState
      reads this
    {
      SporeState(X, Y, Angle, AllowedChannels)
    }

    /** `new Spore(sim, x, y, angle, allowedChannels = All)`. */
    constructor (x: real, y: real, angle: real, allowedChannels: ChannelFlags := All)
      ensures State() == SporeState(x, y, angle, allowedChannels)
    {
      X, Y := x, y;
      Angle := angle;
      AllowedChannels := allowedChannels;
    }

    /** `Tick()`: step, wrap, then draw from the class-wide `rng` to nudge
        the heading. `img` stands for `sim.image`. */
    method Tick(config: Config, trig: Trig, img: SimulatedImage, rng: Random)
      modifies this, rng
      ensures State() == Ticked(old(State()), config, trig, img.width, img.height, rng.samples(old(rng.calls)))
      ensures rng.calls == old(rng.calls) + 1
    {
      ghost var s0 := State();
      ghost var dx, dy := config.speed * trig.cos(Angle), config.speed * trig.sin(Angle);
      X := WrapInto(X + config.speed * trig.cos(Angle), img.width);
      Y := WrapInto(Y + config.speed * trig.sin(Angle), img.height);
      var u := rng.NextDouble();
      Angle := Angle + (u - 0.5) * config.angleChangeModifier;
      assert State() == Advance(s0, dx, dy, Nudge(u, config.angleChangeModifier), img.width, img.height);
    }

    /** `MakeColor()`: the bilinear splat at the spore's position. The
        floor indices are never wrapped, so the position must be in the grid. */
    method MakeColor(config: Config, img: SimulatedImage)
      requires img.Valid() && InGrid(X, Y, img.width, img.height)
      modifies img.data
      ensures forall i, j :: img.Contains(i, j) ==>
        img.data[i, j] == old(img.data[i, j]).Plus(AddedAt(Splat(X, Y, img.width, img.height, config.penIntensity, AllowedChannels), i, j))
    {
      img.DepositSplat(X, Y, config.penIntensity, AllowedChannels);
    }

    /** `Split()`: a new spore; the parent is not changed. */
    method Split() returns (child: Spore)
      ensures fresh(child)
      ensures child.State() == SplitState(State())
    {
      child := new Spore(X, Y, Angle + PI / 8.0, AllowedChannels);
    }
  }
}
