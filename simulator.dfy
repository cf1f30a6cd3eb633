/** `Simulator` of Hyphaeizer/Simulator.cs: its configuration, its random
    generator and `GenerateSingleImage`, which seeds spores, lets every
    spore tick and paint once per iteration, and now and then adds the
    split child of a random spore. As written, the loop drives the legacy
    nested `Spore`, which wraps around the edges. */
module Simulator {
  import opened Util
  import opened Pixels
  import opened Context
  import opened Canvas
  import opened LegacySpores

  // ------------------------------------------------- the population

  /** The spores of `list` are distinct objects. */
  predicate DistinctSpores(list: seq<Spore>) {
    forall a, b :: 0 <= a < b < |list| ==> list[a] != list[b]
  }

  lemma DistinctAt(list: seq<Spore>, a: int, b: int)
    requires DistinctSpores(list) && 0 <= a < |list| && 0 <= b < |list| && a != b
    ensures list[a] != list[b]
  {
  }

  /** The states of the spores of `list`, in list order. */
  ghost function States(list: seq<Spore>): (ss: seq<SporeState>)
    reads set k | 0 <= k < |list| :: list[k]
    ensures |ss| == |list|
    ensures forall k :: 0 <= k < |list| ==> ss[k] == list[k].State()
  {
    seq(|list|, k requires 0 <= k < |list| reads list => list[k].State())
  }

  lemma StatesSnoc(list: seq<Spore>, s: Spore)
    ensures States(list + [s]) == States(list) + [s.State()]
  {
    assert (list + [s])[..|list|] == list;
  }

  lemma StatesPrefix(list: seq<Spore>, n: nat)
    requires n <= |list|
    ensures States(list)[..n] == States(list[..n])
  {
  }

  /** A spore not yet in a list of distinct spores keeps them distinct. */
  lemma DistinctSnoc(list: seq<Spore>, s: Spore)
    requires DistinctSpores(list)
    requires forall k :: 0 <= k < |list| ==> list[k] != s
    ensures DistinctSpores(list + [s])
  {
  }

  /** Every state of `ss` is in the grid and paints every channel. */
  predicate InGridPaintingAll(ss: seq<SporeState>, width: int, height: int) {
    forall k :: 0 <= k < |ss| ==> InGrid(ss[k].x, ss[k].y, width, height) && ss[k].mask == All
  }

  /** The states `ss` after a tick of each, the spore at index `k` drawing
      the sample `samples(c0 + k)`. */
  function TickedAll(ss: seq<SporeState>, config: Config, trig: Trig, width: int, height: int,
                     samples: nat -> Sample, c0: nat): (ts: seq<SporeState>)
    ensures |ts| == |ss|
    ensures forall k :: 0 <= k < |ss| ==> ts[k] == Ticked(ss[k], config, trig, width, height, samples(c0 + k))
  {
    seq(|ss|, k requires 0 <= k < |ss| => Ticked(ss[k], config, trig, width, height, samples(c0 + k)))
  }

  /** The spore seeded from the three draws at `c`: `rng.Next(0, width)`,
      `rng.Next(0, height)` and `rng.NextDouble() * 2 * Math.PI`, painting
      every channel. */
  function SeedState(samples: nat -> Sample, c: nat, width: int, height: int): SporeState
    requires 0 <= width && 0 <= height
  {
    SporeState(IntDraw(samples(c), 0, width) as real, IntDraw(samples(c + 1), 0, height) as real,
               samples(c + 2) * 2.0 * PI, All)
  }

  /** The first `n` seeds drawn from the samples at `c0`, three per seed. */
  function Seeds(samples: nat -> Sample, c0: nat, n: nat, width: int, height: int): (ss: seq<SporeState>)
    requires 0 <= width && 0 <= height
    ensures |ss| == n
    ensures forall k :: 0 <= k < n ==> ss[k] == SeedState(samples, c0 + 3 * k, width, height)
  {
    seq(n, k requires 0 <= k < n => SeedState(samples, c0 + 3 * k, width, height))
  }

  /** Every seed sits on an integer position of a non-empty grid, paints
      every channel and heads in [0, 2 pi). */
  lemma SeedsInGrid(samples: nat -> Sample, c0: nat, n: nat, width: int, height: int)
    requires 0 < width && 0 < height
    ensures var ss := Seeds(samples, c0, n, width, height);
      InGridPaintingAll(ss, width, height) &&
      forall k :: 0 <= k < n ==>
        ss[k].x == ss[k].x.Floor as real && ss[k].y == ss[k].y.Floor as real &&
        0.0 <= ss[k].angle < 2.0 * PI
  {
    var ss := Seeds(samples, c0, n, width, height);
    forall k | 0 <= k < n
      ensures InGrid(ss[k].x, ss[k].y, width, height) && 0.0 <= ss[k].angle < 2.0 * PI
    {
      SeedHeading(samples(c0 + 3 * k + 2));
    }
  }

  /** The heading `rng.NextDouble() * 2 * Math.PI` of a seed lies in [0, 2 pi). */
  lemma SeedHeading(u: Sample)
    ensures 0.0 <= u * 2.0 * PI < 2.0 * PI
  {
  }

  /** The lists of `history`, one after another. */
  function Concat(history: seq<seq<SporeState>>): (all: seq<SporeState>)
    ensures history == [] ==> all == []
  {
    if history == [] then [] else Concat(history[..|history| - 1]) + history[|history| - 1]
  }

  lemma ConcatSnoc(history: seq<seq<SporeState>>, tick: seq<SporeState>)
    ensures Concat(history + [tick]) == Concat(history) + tick
  {
    assert (history + [tick])[..|history|] == history;
  }

  /** The population sizes of a run: `seeds` spores at the first tick, and
      from one tick to the next at most one more. */
  ghost predicate Grows(history: seq<seq<SporeState>>, seeds: nat) {
    (|history| > 0 ==> |history[0]| == seeds) &&
    forall i :: 0 < i < |history| ==> |history[i - 1]| <= |history[i]| <= |history[i - 1]| + 1
  }

  lemma GrowsSnoc(history: seq<seq<SporeState>>, tick: seq<SporeState>, seeds: nat)
    requires Grows(history, seeds)
    requires |history| == 0 ==> |tick| == seeds
    requires |history| > 0 ==> |history[|history| - 1]| <= |tick| <= |history[|history| - 1]| + 1
    ensures Grows(history + [tick], seeds)
  {
    var h := history + [tick];
    forall i | 0 < i < |h| ensures |h[i - 1]| <= |h[i]| <= |h[i - 1]| + 1 {
      if i < |history| {
        assert h[i - 1] == history[i - 1] && h[i] == history[i];
      }
    }
  }

  /** The run tick by tick: entry `i` of `history` is `TickedAll` of the
      population `starts[i]` that tick began with, the spores drawing the
      samples from `c0` on in painting order; and every population begins
      with the states the tick before it left. */
  ghost predicate Chained(history: seq<seq<SporeState>>, starts: seq<seq<SporeState>>, config: Config,
                          trig: Trig, width: int, height: int, samples: nat -> Sample, c0: nat)
    decreases |history|
  {
    |starts| == |history| &&
    (|history| > 0 ==>
       var n := |history| - 1;
       Chained(history[..n], starts[..n], config, trig, width, height, samples, c0) &&
       history[n] == TickedAll(starts[n], config, trig, width, height, samples, c0 + |Concat(history[..n])|) &&
       (n > 0 ==> |history[n - 1]| <= |starts[n]| && starts[n][..|history[n - 1]|] == history[n - 1]))
  }

  /** What a chained run says of its tick `i`. */
  lemma {:induction false} ChainedAt(history: seq<seq<SporeState>>, starts: seq<seq<SporeState>>, config: Config,
                                     trig: Trig, width: int, height: int, samples: nat -> Sample, c0: nat, i: nat)
    requires Chained(history, starts, config, trig, width, height, samples, c0)
    requires i < |history|
    ensures |starts| == |history|
    ensures history[i] == TickedAll(starts[i], config, trig, width, height, samples, c0 + |Concat(history[..i])|)
    ensures 0 < i ==> |history[i - 1]| <= |starts[i]| && starts[i][..|history[i - 1]|] == history[i - 1]
    decreases |history|
  {
    var n := |history| - 1;
    if i < n {
      ChainedAt(history[..n], starts[..n], config, trig, width, height, samples, c0, i);
      assert history[..n][..i] == history[..i];
    }
  }

  lemma ChainSnoc(history: seq<seq<SporeState>>, starts: seq<seq<SporeState>>, tick: seq<SporeState>,
                  start: seq<SporeState>, config: Config, trig: Trig, width: int, height: int,
                  samples: nat -> Sample, c0: nat)
    requires Chained(history, starts, config, trig, width, height, samples, c0)
    requires tick == TickedAll(start, config, trig, width, height, samples, c0 + |Concat(history)|)
    requires |history| > 0 ==>
      |history[|history| - 1]| <= |start| && start[..|history[|history| - 1]|] == history[|history| - 1]
    ensures Chained(history + [tick], starts + [start], config, trig, width, height, samples, c0)
  {
    assert (history + [tick])[..|history|] == history;
    assert (starts + [start])[..|starts|] == starts;
  }

  // ------------------------------------------------------- the ink

  /** What the splats of spores in the states `painted`, applied one after
      another, add to the cell `(i, j)`. */
  function Painting(painted: seq<SporeState>, width: int, height: int, pen: real, i: int, j: int): Pixel {
    if painted == [] then Black
    else
      var s := painted[|painted| - 1];
      Painting(painted[..|painted| - 1], width, height, pen, i, j)
        .Plus(AddedAt(Splat(s.x, s.y, width, height, pen, s.mask), i, j))
  }

  /** The image holds, in every cell, what the splats of `painted` add to a
      black image. */
  ghost predicate Painted(img: SimulatedImage, painted: seq<SporeState>, pen: real)
    reads img, img.data
  {
    img.Valid() &&
    forall i, j :: img.Contains(i, j) ==> img.data[i, j] == Painting(painted, img.width, img.height, pen, i, j)
  }

  /** The sum over the cells `cells` of what `painted` adds to each. */
  function CellSum(painted: seq<SporeState>, width: int, height: int, pen: real, cells: seq<(int, int)>): Pixel {
    if cells == [] then Black
    else
      var c := cells[|cells| - 1];
      CellSum(painted, width, height, pen, cells[..|cells| - 1]).Plus(Painting(painted, width, height, pen, c.0, c.1))
  }

  lemma {:induction false} CellSumEmpty(width: int, height: int, pen: real, cells: seq<(int, int)>)
    ensures CellSum([], width, height, pen, cells) == Black
  {
    if cells != [] {
      CellSumEmpty(width, height, pen, cells[..|cells| - 1]);
    }
  }

  lemma Regroup(a: Pixel, b: Pixel, c: Pixel, d: Pixel)
    ensures a.Plus(b).Plus(c.Plus(d)) == a.Plus(c).Plus(b.Plus(d))
  {
  }

  /** One more splat adds, summed over any cells, what it adds to each. */
  lemma {:induction false} CellSumSnoc(painted: seq<SporeState>, t: SporeState, width: int, height: int, pen: real,
                                      cells: seq<(int, int)>)
    ensures CellSum(painted + [t], width, height, pen, cells) ==
      CellSum(painted, width, height, pen, cells).Plus(SumOver(Splat(t.x, t.y, width, height, pen, t.mask), cells))
  {
    var ds := Splat(t.x, t.y, width, height, pen, t.mask);
    if cells == [] {
      PlusLaws(Black, Black, Black);
    } else {
      var front, c := cells[..|cells| - 1], cells[|cells| - 1];
      CellSumSnoc(painted, t, width, height, pen, front);
      assert (painted + [t])[..|painted|] == painted;
      Regroup(CellSum(painted, width, height, pen, front), SumOver(ds, front),
              Painting(painted, width, height, pen, c.0, c.1), AddedAt(ds, c.0, c.1));
    }
  }

  /** `n` pens of ink, added one splat at a time. */
  function Pens(pen: real, n: nat): real {
    if n == 0 then 0.0 else Pens(pen, n - 1) + pen
  }

  lemma {:induction false} PensIsProduct(pen: real, n: nat)
    ensures Pens(pen, n) == pen * n as real
  {
    if n > 0 {
      PensIsProduct(pen, n - 1);
    }
  }

  /** Conservation of ink over a run: summed over the whole grid (`cells`
      lists every cell once), the splats of `n` spores inside the grid, each
      painting every channel, carry `n` pens of ink in each channel, that is
      `n * penIntensity` by `PensIsProduct`. */
  lemma {:induction false} InkConserved(painted: seq<SporeState>, width: int, height: int, pen: real,
                                       cells: seq<(int, int)>)
    requires InGridPaintingAll(painted, width, height)
    requires Distinct(cells)
    requires forall x, y :: 0 <= x < width && 0 <= y < height ==> (x, y) in cells
    ensures CellSum(painted, width, height, pen, cells) == Grey(Pens(pen, |painted|))
  {
    if painted == [] {
      CellSumEmpty(width, height, pen, cells);
    } else {
      var front, t := painted[..|painted| - 1], painted[|painted| - 1];
      assert painted == front + [t];
      assert InGrid(t.x, t.y, width, height) && t.mask == All;
      InkConserved(front, width, height, pen, cells);
      CellSumStep(front, t, width, height, pen, cells);
      InkStep(CellSum(front, width, height, pen, cells), pen, |front|);
    }
  }

  lemma InkStep(sum: Pixel, pen: real, n: nat)
    requires sum == Grey(Pens(pen, n))
    ensures sum.Plus(Grey(pen)) == Grey(Pens(pen, n + 1))
  {
  }

  /** A spore inside the grid painting every channel adds one pen of grey
      to the sum over a covering of the grid. */
  lemma CellSumStep(painted: seq<SporeState>, t: SporeState, width: int, height: int, pen: real,
                    cells: seq<(int, int)>)
    requires InGrid(t.x, t.y, width, height) && t.mask == All
    requires Distinct(cells)
    requires forall x, y :: 0 <= x < width && 0 <= y < height ==> (x, y) in cells
    ensures CellSum(painted + [t], width, height, pen, cells) == CellSum(painted, width, height, pen, cells).Plus(Grey(pen))
  {
    SplatInCells(t.x, t.y, width, height, pen, t.mask, cells);
    SplatConservesInk(t.x, t.y, width, height, pen, t.mask, cells);
    CellSumSnoc(painted, t, width, height, pen, cells);
    MaskedExtremes(pen, All);
  }

  /** The deposits of a splat inside the grid address cells of `cells`
      when those cover the grid. */
  lemma SplatInCells(x: real, y: real, width: int, height: int, pen: real, mask: ChannelFlags,
                     cells: seq<(int, int)>)
    requires InGrid(x, y, width, height)
    requires forall x, y :: 0 <= x < width && 0 <= y < height ==> (x, y) in cells
    ensures forall k :: 0 <= k < 4 ==>
      (Splat(x, y, width, height, pen, mask)[k].x, Splat(x, y, width, height, pen, mask)[k].y) in cells
  {
    var ds := Splat(x, y, width, height, pen, mask);
    SplatInGrid(x, y, width, height, pen, mask);
    forall k | 0 <= k < 4
      ensures (ds[k].x, ds[k].y) in cells
    {
      assert 0 <= ds[k].x < width && 0 <= ds[k].y < height;
    }
  }

  /** One spore's turn: `Tick`, then `MakeColor`. The spore stays in the
      grid and its state is appended to the states that painted. */
  method TickAndPaint(spore: Spore, config: Config, trig: Trig, img: SimulatedImage, sporeRng: Random,
                      ghost painted: seq<SporeState>)
    returns (ghost painted': seq<SporeState>)
    requires img.Valid() && Bounded(trig)
    requires -(img.width as real) < config.speed < img.width as real
    requires -(img.height as real) < config.speed < img.height as real
    requires InGrid(spore.X, spore.Y, img.width, img.height) && spore.AllowedChannels == All
    requires Painted(img, painted, config.penIntensity)
    modifies spore, sporeRng, img.data
    ensures spore.State() == Ticked(old(spore.State()), config, trig, img.width, img.height, sporeRng.samples(old(sporeRng.calls)))
    ensures sporeRng.calls == old(sporeRng.calls) + 1
    ensures InGrid(spore.X, spore.Y, img.width, img.height) && spore.AllowedChannels == All
    ensures painted' == painted + [spore.State()]
    ensures Painted(img, painted', config.penIntensity)
  {
    ghost var s0 := spore.State();
    spore.Tick(config, trig, img, sporeRng);
    TickInGrid(s0, config, trig, img.width, img.height, sporeRng.samples(sporeRng.calls - 1));
    spore.MakeColor(config, img);
    painted' := painted + [spore.State()];
    assert painted'[..|painted|] == painted;
  }

  class Simulator {
    var image: SimulatedImage?
    const config: Config
    /** The instance generator `rng`; the spores' class-wide one is passed to
        `GenerateSingleImage`. */
    const rng: Random
    /** `Math.Cos` and `Math.Sin`. */
    const trig: Trig

    /** `new Simulator(config)`: a missing configuration means the defaults. */
    constructor (config: Option<Config>, rng: Random, trig: Trig)
      ensures this.config == if config.Some? then config.value else DefaultConfig
      ensures this.rng == rng && this.trig == trig && image == null
    {
      this.config := if config.Some? then config.value else DefaultConfig;
      this.rng := rng;
      this.trig := trig;
      image := null;
    }

    /** The seeding loop: `initialSpores` spores, each from three draws of
        `rng` (x, y, heading). */
    method SeedSpores(img: SimulatedImage) returns (list: seq<Spore>)
      requires img.Valid()
      modifies rng
      ensures |list| == if config.initialSpores > 0 then config.initialSpores else 0
      ensures rng.calls == old(rng.calls) + 3 * |list|
      ensures DistinctSpores(list)
      ensures forall k :: 0 <= k < |list| ==> fresh(list[k])
      ensures States(list) == Seeds(rng.samples, old(rng.calls), |list|, img.width, img.height)
    {
      list := [];
      ghost var c0 := rng.calls;
      var i := 0;
      while i < config.initialSpores
        invariant 0 <= i && |list| == i
        invariant config.initialSpores > 0 ==> i <= config.initialSpores
        invariant config.initialSpores <= 0 ==> i == 0
        invariant rng.calls == c0 + 3 * i
        invariant DistinctSpores(list)
        invariant forall k :: 0 <= k < |list| ==> fresh(list[k])
        invariant States(list) == Seeds(rng.samples, c0, i, img.width, img.height)
      {
        list := AddSeed(img, list, c0);
        i := i + 1;
      }
    }

    /** One pass of the seeding loop: a `NewSeed` appended to `list`. */
    method AddSeed(img: SimulatedImage, list: seq<Spore>, ghost c0: nat) returns (list': seq<Spore>)
      requires img.Valid()
      requires DistinctSpores(list)
      requires rng.calls == c0 + 3 * |list|
      requires States(list) == Seeds(rng.samples, c0, |list|, img.width, img.height)
      modifies rng
      ensures |list'| == |list| + 1 && list'[..|list|] == list && fresh(list'[|list|])
      ensures rng.calls == c0 + 3 * |list'|
      ensures DistinctSpores(list')
      ensures States(list') == Seeds(rng.samples, c0, |list'|, img.width, img.height)
    {
      ghost var before := States(list);
      ghost var c := rng.calls;
      var spore := NewSeed(img);
      assert States(list) == before;
      StatesSnoc(list, spore);
      assert Seeds(rng.samples, c0, |list| + 1, img.width, img.height) ==
        before + [SeedState(rng.samples, c, img.width, img.height)];
      list' := list + [spore];
    }

    /** The body of the seeding loop: a spore at `(rng.Next(0, width),
        rng.Next(0, height))` heading `rng.NextDouble() * 2 * Math.PI`. */
    method NewSeed(img: SimulatedImage) returns (spore: Spore)
      requires img.Valid()
      modifies rng
      ensures fresh(spore)
      ensures rng.calls == old(rng.calls) + 3
      ensures spore.State() == SeedState(rng.samples, old(rng.calls), img.width, img.height)
    {
      var x := rng.Next(0, img.width);
      var y := rng.Next(0, img.height);
      var u := rng.NextDouble();
      spore := new Spore(x as real, y as real, u * 2.0 * PI);
    }

    /** The `foreach` of one iteration: every spore, in list order, ticks
        (each drawing once from `sporeRng`) and then paints its splat. */
    method TickAll(img: SimulatedImage, list: seq<Spore>, sporeRng: Random, ghost painted: seq<SporeState>)
      returns (ghost painted': seq<SporeState>)
      requires img.Valid()
      requires DistinctSpores(list)
      requires |list| > 0 ==> (Bounded(trig) &&
        -(img.width as real) < config.speed < img.width as real &&
        -(img.height as real) < config.speed < img.height as real)
      requires InGridPaintingAll(States(list), img.width, img.height)
      requires Painted(img, painted, config.penIntensity)
      modifies set k | 0 <= k < |list| :: list[k]
      modifies sporeRng, img.data
      ensures sporeRng.calls == old(sporeRng.calls) + |list|
      ensures States(list) == TickedAll(old(States(list)), config, trig, img.width, img.height, sporeRng.samples, old(sporeRng.calls))
      ensures InGridPaintingAll(States(list), img.width, img.height)
      ensures painted' == painted + States(list)
      ensures Painted(img, painted', config.penIntensity)
    {
      ghost var c0 := sporeRng.calls;
      ghost var s0 := States(list);
      ghost var ts := TickedAll(s0, config, trig, img.width, img.height, sporeRng.samples, c0);
      painted' := painted;
      for k := 0 to |list|
        invariant sporeRng.calls == c0 + k
        invariant forall j :: 0 <= j < k ==> list[j].State() == ts[j]
        invariant forall j :: k <= j < |list| ==> list[j].State() == s0[j]
        invariant forall j :: 0 <= j < k ==> InGrid(ts[j].x, ts[j].y, img.width, img.height) && ts[j].mask == All
        invariant painted' == painted + ts[..k]
        invariant Painted(img, painted', config.penIntensity)
      {
        label pre:
        painted' := TickAndPaint(list[k], config, trig, img, sporeRng, painted');
        forall j | 0 <= j < |list| && j != k
          ensures list[j].State() == old@pre(list[j].State())
        {
          DistinctAt(list, j, k);
        }
        assert ts[..k + 1] == ts[..k] + [ts[k]];
      }
      assert ts[..|list|] == ts;
    }

    /** The split step: `rng.NextDouble() < splitProbability` decides, then
        `rng.Next(0, spores.Count)` picks the parent whose `Split()` child is
        appended. With no spores the parent lookup throws. */
    method MaybeSplit(list: seq<Spore>) returns (list': seq<Spore>)
      requires |list| > 0 || rng.samples(rng.calls) >= config.splitProbability
      modifies rng
      ensures var u := rng.samples(old(rng.calls));
        u < config.splitProbability ==>
          var p := IntDraw(rng.samples(old(rng.calls) + 1), 0, |list|);
          0 <= p < |list| &&
          |list'| == |list| + 1 && list'[..|list|] == list && fresh(list'[|list|]) &&
          list'[|list|].State() == SplitState(list[p].State()) &&
          rng.calls == old(rng.calls) + 2
      ensures rng.samples(old(rng.calls)) >= config.splitProbability ==>
        list' == list && rng.calls == old(rng.calls) + 1
    {
      list' := list;
      var u := rng.NextDouble();
      if u < config.splitProbability {
        var p := rng.Next(0, |list|);
        var parent := list[p];
        var child := parent.Split();
        list' := list + [child];
      }
    }

    /** One iteration of the main loop: every spore ticks and paints, then
        maybe one splits. */
    method Iterate(img: SimulatedImage, list: seq<Spore>, sporeRng: Random, ghost painted: seq<SporeState>)
      returns (list': seq<Spore>, ghost painted': seq<SporeState>)
      requires img.Valid() && sporeRng != rng
      requires DistinctSpores(list)
      requires |list| > 0 ==> (Bounded(trig) &&
        -(img.width as real) < config.speed < img.width as real &&
        -(img.height as real) < config.speed < img.height as real)
      requires |list| > 0 || rng.samples(rng.calls) >= config.splitProbability
      requires InGridPaintingAll(States(list), img.width, img.height)
      requires InGridPaintingAll(painted, img.width, img.height)
      requires Painted(img, painted, config.penIntensity)
      modifies set k | 0 <= k < |list| :: list[k]
      modifies rng, sporeRng, img.data
      ensures |list| <= |list'| <= |list| + 1 && list'[..|list|] == list
      ensures forall k :: |list| <= k < |list'| ==> fresh(list'[k])
      ensures sporeRng.calls == old(sporeRng.calls) + |list|
      ensures States(list) == TickedAll(old(States(list)), config, trig, img.width, img.height, sporeRng.samples, old(sporeRng.calls))
      ensures painted' == painted + States(list)
      ensures var u := rng.samples(old(rng.calls));
        u < config.splitProbability ==>
          var p := IntDraw(rng.samples(old(rng.calls) + 1), 0, |list|);
          0 <= p < |list| && |list'| == |list| + 1 &&
          list'[|list|].State() == SplitState(list[p].State()) &&
          rng.calls == old(rng.calls) + 2
      ensures rng.samples(old(rng.calls)) >= config.splitProbability ==>
        list' == list && rng.calls == old(rng.calls) + 1
      ensures DistinctSpores(list')
      ensures InGridPaintingAll(States(list'), img.width, img.height)
      ensures InGridPaintingAll(painted', img.width, img.height)
      ensures Painted(img, painted', config.penIntensity)
    {
      painted' := TickAll(img, list, sporeRng, painted);
      assert InGridPaintingAll(painted', img.width, img.height);
      list' := MaybeSplit(list);
      if list' != list {
        var child := list'[|list|];
        assert list' == list + [child];
        DistinctSnoc(list, child);
        StatesSnoc(list, child);
      }
    }

    /** `Iterate`, recording the states that painted as one more tick of
        `history`. */
    method Round(img: SimulatedImage, list: seq<Spore>, sporeRng: Random, ghost painted: seq<SporeState>,
                 ghost history: seq<seq<SporeState>>, ghost starts: seq<seq<SporeState>>, ghost seeds: nat,
                 ghost c0: nat)
      returns (list': seq<Spore>, ghost painted': seq<SporeState>, ghost history': seq<seq<SporeState>>,
               ghost starts': seq<seq<SporeState>>)
      requires img.Valid() && sporeRng != rng
      requires DistinctSpores(list)
      requires |list| > 0 ==> (Bounded(trig) &&
        -(img.width as real) < config.speed < img.width as real &&
        -(img.height as real) < config.speed < img.height as real)
      requires |list| > 0 || rng.samples(rng.calls) >= config.splitProbability
      requires InGridPaintingAll(States(list), img.width, img.height)
      requires InGridPaintingAll(painted, img.width, img.height)
      requires Painted(img, painted, config.penIntensity)
      requires painted == Concat(history) && Grows(history, seeds)
      requires |history| == 0 ==> |list| == seeds
      requires |history| > 0 ==> |history[|history| - 1]| <= |list| <= |history[|history| - 1]| + 1
      requires |history| > 0 ==> States(list)[..|history[|history| - 1]|] == history[|history| - 1]
      requires Chained(history, starts, config, trig, img.width, img.height, sporeRng.samples, c0)
      requires sporeRng.calls == c0 + |painted|
      modifies set k | 0 <= k < |list| :: list[k]
      modifies rng, sporeRng, img.data
      ensures |list| <= |list'| <= |list| + 1 && list'[..|list|] == list
      ensures forall k :: |list| <= k < |list'| ==> fresh(list'[k])
      ensures |list| == 0 ==> list' == [] && rng.calls == old(rng.calls) + 1
      ensures sporeRng.calls == old(sporeRng.calls) + |list|
      ensures |history'| == |history| + 1 && history'[..|history|] == history
      ensures |history'[|history|]| == |list|
      ensures history'[|history|] ==
        TickedAll(old(States(list)), config, trig, img.width, img.height, sporeRng.samples, old(sporeRng.calls))
      ensures States(list')[..|list|] == history'[|history|]
      ensures painted' == Concat(history') && Grows(history', seeds)
      ensures Chained(history', starts', config, trig, img.width, img.height, sporeRng.samples, c0)
      ensures |starts'| == |starts| + 1 && starts'[..|starts|] == starts && starts'[|starts|] == old(States(list))
      ensures |painted'| == |painted| + |list|
      ensures DistinctSpores(list')
      ensures InGridPaintingAll(States(list'), img.width, img.height)
      ensures InGridPaintingAll(painted', img.width, img.height)
      ensures Painted(img, painted', config.penIntensity)
    {
      ghost var s0, d0 := States(list), sporeRng.calls;
      list', painted' := Iterate(img, list, sporeRng, painted);
      ghost var ts := States(list);
      assert ts == TickedAll(s0, config, trig, img.width, img.height, sporeRng.samples, d0);
      history' := history + [ts];
      ConcatSnoc(history, ts);
      GrowsSnoc(history, ts, seeds);
      StatesPrefix(list', |list|);
      ChainSnoc(history, starts, ts, s0, config, trig, img.width, img.height, sporeRng.samples, c0);
      assert history' == history + [ts];
      starts' := starts + [s0];
    }

    /** The iteration loop of `GenerateSingleImage`, run from the spores
        `seeded` on a black image. */
    method RunIterations(img: SimulatedImage, seeded: seq<Spore>, sporeRng: Random)
      returns (list: seq<Spore>, ghost history: seq<seq<SporeState>>, ghost starts: seq<seq<SporeState>>,
               ghost painted: seq<SporeState>)
      requires img.Valid() && sporeRng != rng
      requires DistinctSpores(seeded)
      requires |seeded| > 0 && config.iterations > 0 ==> (Bounded(trig) &&
        -(img.width as real) < config.speed < img.width as real &&
        -(img.height as real) < config.speed < img.height as real)
      requires |seeded| == 0 ==>
        forall k: nat :: rng.calls <= k < rng.calls + config.iterations ==> rng.samples(k) >= config.splitProbability
      requires config.iterations > 0 ==> InGridPaintingAll(States(seeded), img.width, img.height)
      requires Painted(img, [], config.penIntensity)
      modifies set k | 0 <= k < |seeded| :: seeded[k]
      modifies rng, sporeRng, img.data
      ensures var ticks := if config.iterations > 0 then config.iterations else 0;
        |seeded| <= |list| <= |seeded| + ticks && |history| == ticks
      ensures list[..|seeded|] == seeded && forall k :: |seeded| <= k < |list| ==> fresh(list[k])
      ensures DistinctSpores(list)
      ensures config.iterations > 0 ==> InGridPaintingAll(States(list), img.width, img.height)
      ensures config.iterations <= 0 ==> list == seeded && States(list) == old(States(seeded))
      ensures painted == Concat(history) && Grows(history, |seeded|)
      ensures Chained(history, starts, config, trig, img.width, img.height, sporeRng.samples, old(sporeRng.calls))
      ensures |history| > 0 ==> starts[0] == old(States(seeded))
      ensures |history| > 0 ==> |history[|history| - 1]| <= |list| <= |history[|history| - 1]| + 1
      ensures |history| > 0 ==> States(list)[..|history[|history| - 1]|] == history[|history| - 1]
      ensures sporeRng.calls == old(sporeRng.calls) + |painted|
      ensures InGridPaintingAll(painted, img.width, img.height)
      ensures Painted(img, painted, config.penIntensity)
    {
      list, history, starts, painted := seeded, [], [], [];
      var i := 0;
      while i < config.iterations
        invariant config.iterations > 0 ==> 0 <= i <= config.iterations
        invariant config.iterations <= 0 ==> i == 0
        invariant |seeded| <= |list| <= |seeded| + i && list[..|seeded|] == seeded
        invariant forall k :: |seeded| <= k < |list| ==> fresh(list[k])
        invariant |seeded| == 0 ==> list == [] && rng.calls == old(rng.calls) + i
        invariant DistinctSpores(list)
        invariant config.iterations > 0 ==> InGridPaintingAll(States(list), img.width, img.height)
        invariant |history| == i && painted == Concat(history) && Grows(history, |seeded|)
        invariant Chained(history, starts, config, trig, img.width, img.height, sporeRng.samples, old(sporeRng.calls))
        invariant i > 0 ==> starts[0] == old(States(seeded))
        invariant i == 0 ==> list == seeded && States(list) == old(States(seeded))
        invariant i > 0 ==> |history[i - 1]| <= |list| <= |history[i - 1]| + 1
        invariant i > 0 ==> States(list)[..|history[i - 1]|] == history[i - 1]
        invariant sporeRng.calls == old(sporeRng.calls) + |painted|
        invariant InGridPaintingAll(painted, img.width, img.height)
        invariant Painted(img, painted, config.penIntensity)
      {
        list, painted, history, starts :=
          Round(img, list, sporeRng, painted, history, starts, |seeded|, old(sporeRng.calls));
        i := i + 1;
      }
    }

    /** `GenerateSingleImage(width, height)`. `sporeRng` is the spores'
        class-wide generator. The step of a spore must be shorter than the
        grid for the wrap of `Tick` to bring it back inside; and with no
        initial spores, a split would look up a parent in an empty list.
        `painted` lists, tick by tick and in list order, the state of every
        spore when it painted. */
    method GenerateSingleImage(width: int, height: int, sporeRng: Random)
      returns (img: SimulatedImage, ghost spores: seq<Spore>, ghost history: seq<seq<SporeState>>,
               ghost starts: seq<seq<SporeState>>, ghost painted: seq<SporeState>)
      requires 0 <= width && 0 <= height
      requires sporeRng != rng
      requires config.initialSpores > 0 && config.iterations > 0 ==>
        (0 < width && 0 < height && Bounded(trig) &&
         -(width as real) < config.speed < width as real &&
         -(height as real) < config.speed < height as real)
      requires config.initialSpores <= 0 ==>
        forall k: nat :: rng.calls <= k < rng.calls + config.iterations ==> rng.samples(k) >= config.splitProbability
      modifies this, rng, sporeRng
      ensures fresh(img) && image == img
      ensures img.Valid() && img.width == width && img.height == height
      ensures var seeds := if config.initialSpores > 0 then config.initialSpores else 0;
        var ticks := if config.iterations > 0 then config.iterations else 0;
        seeds <= |spores| <= seeds + ticks
      ensures DistinctSpores(spores) && forall k :: 0 <= k < |spores| ==> fresh(spores[k])
      ensures 0 < width && 0 < height ==> InGridPaintingAll(States(spores), width, height)
      ensures var ticks := if config.iterations > 0 then config.iterations else 0;
        |history| == ticks && painted == Concat(history)
      ensures Grows(history, if config.initialSpores > 0 then config.initialSpores else 0)
      ensures Chained(history, starts, config, trig, width, height, sporeRng.samples, old(sporeRng.calls))
      ensures |history| > 0 ==>
        starts[0] == Seeds(rng.samples, old(rng.calls), |history[0]|, width, height)
      ensures |history| > 0 ==> |history[|history| - 1]| <= |spores| <= |history[|history| - 1]| + 1
      ensures |history| > 0 ==> States(spores)[..|history[|history| - 1]|] == history[|history| - 1]
      ensures sporeRng.calls == old(sporeRng.calls) + |painted|
      ensures InGridPaintingAll(painted, width, height)
      ensures Painted(img, painted, config.penIntensity)
    {
      image := new SimulatedImage(width, height);
      img := image;

      var list := SeedSpores(img);
      if 0 < width && 0 < height {
        SeedsInGrid(rng.samples, old(rng.calls), |list|, width, height);
      }
      ghost var seeded := list;
      list, history, starts, painted := RunIterations(img, list, sporeRng);
      forall k | 0 <= k < |list| ensures fresh(list[k]) {
        if k < |seeded| {
          assert list[k] == seeded[k];
        }
      }
      spores := list;
    }
  }
}
