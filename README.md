# Hyphaeizer, modelled in Dafny

Hyphaeizer paints images by simulating fungal growth. Spores walk over a
grid of floating-point pixels. At every step each spore deposits ink in the
four cells around its position, split bilinearly. Now and then a spore
splits into two. This project models the simulation core in Dafny 4 and
proves properties of it:

- `Pixels` models `ChannelFlags` and `Pixel`, the accumulator pixel with
  its `+`, `-` and luminance.
- `Util` models `Util.GetLuminance` and `Util.SumByteArray`, including the
  32-bit wrap of its `int` accumulator.
- `Canvas` models `SimulatedImage`, a `width x height` grid of pixels, and
  the bilinear splat `MakeColor` adds into it. Both spore designs share the
  splat.
- `LegacySpores` models the `Spore` class nested in `Simulator.cs`. It
  wraps around the edges like a torus and moves at the configured speed.
- `Spores` models the `Spore` hierarchy of `Spores.cs`:
  - a spore bounces off the edges and is clamped to the grid;
  - `BlindSpore` nudges its heading at random;
  - `SightedSpore`, on its first tick and on every tick `t` with
    `t mod 50 = 49`, also snaps its heading to North, South, West or East.
    Each direction is weighed by the truncated byte luminances of an overlay
    image along the spore's column or row. One draw picks the direction.
    The first entry, North, gets one draw more than it weighs and the last
    entry of non-zero weight one fewer; nothing shifts when these are the
    same entry (see Findings). The spore also slows down on bright pixels.
- `Simulator` models `Simulator`: its configuration, the seeding of the
  initial spores, and the iteration loop of `GenerateSingleImage`. That
  loop ticks and paints every spore, then maybe splits one.
- `Context` holds what every spore reads through its `sim` reference:
  - the `Config` defaults;
  - `Math.PI`;
  - `Math.Cos` and `Math.Sin`, passed in as values;
  - `System.Random`, a stream of samples supplied by the caller and
    consumed one per call.
- `Arith` holds one fact about products of reals.

The main results:

- A splat adds exactly `penIntensity` to every allowed channel, summed
  over the cells it touches.
- A splat changes nothing outside its cells and its allowed channels.
- After any run of `GenerateSingleImage`, every cell of the image holds
  the sum of the splats of a ghost list of painted states. That list is
  the concatenation of one list per tick. The first holds as many states
  as there are seeds, each next one at most one more, and the last one is
  a prefix of the final spores' states (a child split off in the last tick
  is not in it). The spore stream is drawn once per painted state. Each
  tick's list is `TickedAll` of the population that tick began with, at
  the draws that follow the earlier ticks. The first population is the
  seeds, and each next one begins with the states the tick before it
  left.
- Summed over the grid, that is `n` pens of ink for `n` splats.
- Legacy spores stay inside the grid: each tick moves them on a torus.
- A bouncing spore turns round exactly when its step leaves the grid. It
  ends inside the grid except in one corner case (see Findings).
- The sighted spore's weights for North and South together cover its
  column, and West and East its row.
- The selection loop returns the entry that the `First` search picks.
- The speed of a sighted spore never grows and never drops below zero.

## Model

| member | source | states |
|---|---|---|
| Pixels.Pixel.Plus | Hyphaeizer/Simulator.cs:43 | every channel of the sum, minus the other operand's channel, gives back this pixel's channel; adding `default(Pixel)` changes nothing |
| Pixels.Pixel.Minus | Hyphaeizer/Simulator.cs:45 | subtracting `default(Pixel)` changes nothing (`PlusLaws` proves that `-` undoes `+`) |
| Pixels.Pixel.Luminance | Hyphaeizer/Simulator.cs:47 | a grey pixel's luminance is its value; with non-negative channels the luminance lies between 0 and the largest channel |
| Pixels.Grey | Hyphaeizer/Simulator.cs:27 | `new Pixel(all)` has `all` in every channel and luminance `all` |
| Pixels.Masked | Hyphaeizer/Simulator.cs:29-34 | `new Pixel(all, flags)` carries `all` in exactly the channels whose flag bit is set and 0 in the others |
| Pixels.MaskedExtremes | Hyphaeizer/Simulator.cs:11-34 | mask `All` gives the grey pixel; mask `None` or amount 0 gives black; a red-only pixel has luminance 0.3 times its amount |
| Pixels.MaskedAdds | Hyphaeizer/Simulator.cs:29-43 | masking is additive: two masked amounts add up to the masked sum |
| Pixels.PlusLaws | Hyphaeizer/Simulator.cs:43-45 | `+` is commutative and associative; black is its unit; `-` undoes `+` |
| Pixels.LuminanceAdds | Hyphaeizer/Simulator.cs:43-47 | the luminance of a sum is the sum of the luminances |
| Pixels.ChannelValues | Hyphaeizer/Simulator.cs:29-43 | channel by channel, a masked pixel is `all` where the flag is set and 0 elsewhere, and `+` adds channel values |
| Pixels.LuminanceAgrees | Hyphaeizer/Simulator.cs:47 | the pixel luminance and `Util.GetLuminance` of a colour with the same channels agree |
| Util.GetLuminance | Hyphaeizer/Util.cs:8 | the luminance of byte channels lies in [0, 255] and equals the channel value for a grey colour |
| Util.GetLuminanceOfColor | Hyphaeizer/Util.cs:7 | the same bounds for the `Color` overload |
| Util.LuminanceMonotone | Hyphaeizer/Util.cs:8 | luminance is monotone in every channel, and two ordered colours have equal luminance only when they are equal |
| Util.Wrap32 | Hyphaeizer/Util.cs:13-15 | a C# `int` assignment: the result is in the 32-bit range, congruent to the exact value modulo 2^32, and equal to it when that is in range |
| Util.Wrap32Add | Hyphaeizer/Util.cs:15 | wrapping after every addition gives the same result as wrapping the exact sum once |
| Util.Sum | Hyphaeizer/Util.cs:14-15 | the exact sum of bytes lies in [0, 255 * length] |
| Util.SumByteArray | Hyphaeizer/Util.cs:10-17 | returns the 32-bit wrapped sum of `arr[begin..e)`, where `e` is `end`, or `Length - 1` when `end` is -1; returns 0 for an empty range; does not wrap when `255 * (e - begin)` fits in an `int` |
| Context.IntDraw | Hyphaeizer/Simulator.cs:179-180 | `Random.Next(lo, hi)` returns an integer in `[lo, hi)`, or `lo` when the range is empty |
| Context.NudgeBounds | Hyphaeizer/Simulator.cs:137 | the nudge `(NextDouble() - .5) * angleChangeModifier` lies in `[-m/2, m/2]` for a modifier `m >= 0`, and in `[-m/2, m/2)` for `m > 0` |
| Context.Random.NextDouble | Hyphaeizer/Simulator.cs:137 | returns the next sample of the stream and advances the call count by one |
| Context.Random.Next | Hyphaeizer/Simulator.cs:196 | returns `IntDraw` of the next sample and advances the call count by one |
| Canvas.SimulatedImage.constructor | Hyphaeizer/Simulator.cs:55-60 | a fresh `width x height` grid with every pixel black |
| Canvas.SimulatedImage.Set | Hyphaeizer/Simulator.cs:62-66 | the setter changes the addressed cell and no other |
| Canvas.SimulatedImage.AddTo | Hyphaeizer/Simulator.cs:62-66 | `img[x, y] += p` adds `p` to cell `(x, y)` and leaves every other cell as it was |
| Canvas.SimulatedImage.DepositSplat | Hyphaeizer/Simulator.cs:144-157 | after the four `+=` statements every cell holds its old value plus what the splat addresses to it |
| Canvas.FourShares | Hyphaeizer/Simulator.cs:154-157 | four deposits applied in turn add, to every cell, their combined share |
| Canvas.Ceil | Hyphaeizer/Simulator.cs:145 | `(int)Math.Ceiling` is the least integer not below `v`: the floor for an integral `v`, otherwise the floor plus one |
| Canvas.IndicesInGrid | Hyphaeizer/Simulator.cs:144-147 | for a coordinate in `[0, size)` the floor index and the wrapped ceiling index both lie in `[0, size)` |
| Canvas.SplatIndexRules | Hyphaeizer/Simulator.cs:144-147 | `x1` is `floor X`; `x2` is `ceil X`, or 0 exactly when `ceil X` reaches the width or is 0 (y alike); the floor indices are never wrapped; inside the grid all four cells are valid |
| Canvas.SplatInGrid | Hyphaeizer/Simulator.cs:144-157 | from a position inside the grid, every deposit addresses a cell of the grid |
| Canvas.SplatWrapsCeilingOnly | Hyphaeizer/Simulator.cs:144-147 | in the last column (not on a lattice point) the ceiling share goes to column 0 and the floor share stays in the last column |
| Canvas.SplatTotal | Hyphaeizer/Simulator.cs:149-157 | the four amounts of a splat add up to `penIntensity` in every allowed channel and 0 in the others |
| Canvas.BilinearWeights | Hyphaeizer/Simulator.cs:149-152 | the four bilinear weights `rx * ry` sum to 1 |
| Canvas.AddedAtAppend | Hyphaeizer/Simulator.cs:154-157 | deposits applied one batch after another add up |
| Canvas.SumOverCovering | Hyphaeizer/Simulator.cs:154-157 | summed over any list of distinct cells that includes every addressed cell, the deposits add exactly their total, even when two of them address the same cell |
| Canvas.SplatConservesInk | Hyphaeizer/Simulator.cs:140-158 | summed over the distinct cells it touches (one, two or four), a splat adds `penIntensity` to every allowed channel and 0 to the others |
| Canvas.AddedAtElsewhere | Hyphaeizer/Simulator.cs:154-157 | a cell that no deposit addresses gains nothing |
| Canvas.LatticeChannelOff | Hyphaeizer/Simulator.cs:152 | a channel the mask switches off gets 0 from each of the four deposits |
| Canvas.SplatFrame | Hyphaeizer/Simulator.cs:152-157 | a splat changes only its own cells, and in them only the allowed channels |
| Canvas.SplatAtLatticePoint | Hyphaeizer/Simulator.cs:144-157 | at integer `X, Y` inside the grid, the whole pen lands in cell `(X, Y)` and every other cell gets nothing |
| Arith.ShortStep | Hyphaeizer/Simulator.cs:129-130 | a step `speed * c` with `c` in [-1, 1] and `|speed| < size` is shorter than `size` |
| LegacySpores.WrapCases | Hyphaeizer/Simulator.cs:132-135 | the wrap shifts a coordinate by 0 or by one size either way; it leaves a coordinate inside the range alone; it brings one in `[-size, 2 size)` into `[0, size)` |
| LegacySpores.AdvanceIsTorusStep | Hyphaeizer/Simulator.cs:129-137 | a wrapped move changes each coordinate by the step, or by the step plus or minus the size; the heading turns by the given amount; the channels stay |
| LegacySpores.TickIsTorusStep | Hyphaeizer/Simulator.cs:125-138 | `Tick` moves by `speed * (cos, sin)` of the heading on a torus and turns the heading by the nudge of its draw |
| LegacySpores.TickStaysInGrid | Hyphaeizer/Simulator.cs:129-135 | from inside the grid, a step shorter than the grid on each axis ends inside the grid |
| LegacySpores.TickInGrid | Hyphaeizer/Simulator.cs:129-135 | with cosine and sine in [-1, 1] and `|speed|` below both sides, a tick from inside the grid ends inside it |
| LegacySpores.SplitState | Hyphaeizer/Simulator.cs:160 | the child has the parent's position and channels, and its heading is turned by pi/8 |
| LegacySpores.WrapInto | Hyphaeizer/Simulator.cs:132-135 | the two tests of one axis compute the wrap |
| LegacySpores.Spore.constructor | Hyphaeizer/Simulator.cs:117-123 | the state is the given position, heading and channels (default `All`) |
| LegacySpores.Spore.Tick | Hyphaeizer/Simulator.cs:125-138 | the new state is `Ticked` of the old one for the sample drawn; one draw from the class-wide `rng` |
| LegacySpores.Spore.MakeColor | Hyphaeizer/Simulator.cs:140-158 | every cell gains what the splat at the spore's position addresses to it |
| LegacySpores.Spore.Split | Hyphaeizer/Simulator.cs:160 | returns a fresh spore in the split state; the parent is unchanged |
| Spores.ClampXY | Hyphaeizer/Spores.cs:39-42 | a coordinate inside its range is kept; a negative one becomes 0; X at or past the width becomes `width - 1`; Y at or past the height becomes `height - 1` only when X was not clamped; the result is in the grid exactly unless the step passed both the right and the bottom edge |
| Spores.Moved | Hyphaeizer/Spores.cs:29-43 | `Move` keeps speed and channels, and the position is the clamp of the step |
| Spores.MoveReflects | Hyphaeizer/Spores.cs:36-37 | the heading turns by pi when the step leaves the grid and is unchanged otherwise |
| Spores.MoveLandsInGrid | Hyphaeizer/Spores.cs:36-42 | after `Move` the spore is in the grid unless its step passed both the right and the bottom edge |
| Spores.CornerEscape | Hyphaeizer/Spores.cs:41-42 | a spore at (3.9, 3.9) on a 4 x 4 grid stepping (0.15, 0.15) is left at (3, 4.05), outside the grid |
| Spores.ClampIntended | Hyphaeizer/Spores.cs:39-42 | clamping both axes independently always lands in the grid, and agrees with the clamp as written whenever the step did not pass both far edges |
| Spores.LuminanceWeight | Hyphaeizer/Spores.cs:106 | `(byte)GetLuminance(c)` is the integer part of the luminance, in [0, 255] |
| Spores.ColumnSum | Hyphaeizer/Spores.cs:105-108 | the weight of a run of rows of one column lies in [0, 255 * rows] |
| Spores.RowSum | Hyphaeizer/Spores.cs:110-113 | the weight of a run of columns of one row lies in [0, 255 * columns] |
| Spores.OverlayWeights | Hyphaeizer/Spores.cs:102-113 | the four direction weights are non-negative |
| Spores.WeightsCoverLines | Hyphaeizer/Spores.cs:105-113 | North plus South weigh the spore's whole column, and West plus East its whole row |
| Spores.FirstReaching | Hyphaeizer/Spores.cs:126 | the `First` search returns the first entry whose cumulative weight reaches `r`, or nothing (where `First` throws) when none does |
| Spores.SearchSucceeds | Hyphaeizer/Spores.cs:125-126 | for `r` at most the total weight, `First` does not throw |
| Spores.ZeroSelectsNorth | Hyphaeizer/Spores.cs:125-126 | the draw `r = 0` selects North whatever North weighs |
| Spores.SelectedByInterval | Hyphaeizer/Spores.cs:125-126 | a draw `0 < r <= total` selects entry `k` exactly when `Cum(k) < r <= Cum(k + 1)` |
| Spores.ZeroWeightSelected | Hyphaeizer/Spores.cs:125-126 | with weights (0, 5, 0, 0) the draw 0 selects North, which weighs nothing |
| Spores.WeightedPick | Hyphaeizer/Spores.cs:126 | the first entry whose cumulative weight exceeds `r` |
| Spores.WeightedPickIsProportional | Hyphaeizer/Spores.cs:125-126 | for `0 <= r < total` the pick always succeeds; it selects entry `k` exactly for the `Weight(k)` draws in `[Cum(k), Cum(k + 1))`; it never selects an entry of weight 0 |
| Spores.IntendedPick | Hyphaeizer/Spores.cs:125-126 | the corrected pick: with a positive total, entry `k` for exactly the draws in `[Cum(k), Cum(k + 1))`, never an entry of weight 0; with every weight 0, North, as the code as written picks |
| Spores.SelectDirection | Hyphaeizer/Spores.cs:126 | the loop that decrements `r` returns the direction the `First` search selects |
| Spores.Heading | Hyphaeizer/Spores.cs:128-145 | every snapped heading lies in [0, 2 pi) |
| Spores.SnappedHeading | Hyphaeizer/Spores.cs:100-145 | a resampling spore's heading is one of 3 pi/2, pi/2, pi or 0 |
| Spores.ResampleSchedule | Hyphaeizer/Spores.cs:100 | a spore resamples on tick 0 and on every tick `t` with `t mod 50 = 49` |
| Spores.SpeedAfter | Hyphaeizer/Spores.cs:151-156 | a non-negative speed drops by `luminance / 100000`, with 0 as the floor; a negative speed is kept |
| Spores.SpeedDecays | Hyphaeizer/Spores.cs:151-156 | over any run of ticks the speed never grows, and a non-negative speed never becomes negative |
| Spores.SplitState | Hyphaeizer/Spores.cs:82 | the child has the parent's position and channels, its heading is turned by pi/8, and its speed is reset to `config.speed` |
| Spores.Spore.constructor | Hyphaeizer/Spores.cs:20-27 | the state is the given position, heading and channels, with speed `config.speed` |
| Spores.Spore.Move | Hyphaeizer/Spores.cs:29-43 | the new state is `Moved` of the old one |
| Spores.Spore.MakeColor | Hyphaeizer/Spores.cs:47-70 | every cell gains what the splat at the spore's position addresses to it |
| Spores.Spore.DecideAngleBlind | Hyphaeizer/Spores.cs:80 | only the heading changes, by the nudge of one draw from the class-wide `rng` |
| Spores.Spore.DecideAngleSighted | Hyphaeizer/Spores.cs:95-159 | the position and channels are kept; on a resampling tick the heading is the snapped heading plus the nudge, otherwise the old heading plus the nudge; the speed follows `SpeedAfter`; the draws are counted |
| Spores.Spore.Split | Hyphaeizer/Spores.cs:161 | returns a fresh spore of the same variant in the split state; the parent is unchanged |
| Spores.ChooseHeading | Hyphaeizer/Spores.cs:100-149 | the four weight loops, the draw, the search and the `switch` compute `SnappedHeading` for the sample drawn |
| Spores.SumWeights | Hyphaeizer/Spores.cs:102-113 | the four loops compute `OverlayWeights` |
| Spores.SumColumn | Hyphaeizer/Spores.cs:105-108 | the column loop computes `ColumnSum` |
| Spores.SumRow | Hyphaeizer/Spores.cs:110-113 | the row loop computes `RowSum` |
| Simulator.TickedAll | Hyphaeizer/Simulator.cs:188-192 | the state of every spore after one pass of the `foreach`, the `k`-th spore drawing the `k`-th sample |
| Simulator.Seeds | Hyphaeizer/Simulator.cs:174-184 | the `k`-th seed is drawn from the three samples starting at `c0 + 3k` |
| Simulator.SeedsInGrid | Hyphaeizer/Simulator.cs:174-184 | on a non-empty grid every seed sits on an integer position inside the grid, paints every channel and heads in [0, 2 pi) |
| Simulator.SeedHeading | Hyphaeizer/Simulator.cs:181 | `NextDouble() * 2 * Math.PI` lies in [0, 2 pi) |
| Simulator.CellSumSnoc | Hyphaeizer/Simulator.cs:188-192 | one more splat adds, summed over any cells, what it adds to each |
| Simulator.PensIsProduct | Hyphaeizer/Simulator.cs:186-192 | `n` pens of ink, added one splat at a time, are `n * penIntensity` |
| Simulator.InkConserved | Hyphaeizer/Simulator.cs:186-192 | summed over the whole grid, the splats of `n` in-grid spores that paint every channel add `n` pens to every channel |
| Simulator.CellSumStep | Hyphaeizer/Simulator.cs:190-191 | one in-grid spore painting every channel adds one pen of grey to the sum over the grid |
| Simulator.SplatInCells | Hyphaeizer/Simulator.cs:144-147 | from inside the grid, a splat addresses only cells of any list that covers the grid |
| Simulator.TickAndPaint | Hyphaeizer/Simulator.cs:190-191 | a spore's turn ticks it, keeps it in the grid and appends its new state to the painted states that the image holds |
| Simulator.Simulator.constructor | Hyphaeizer/Simulator.cs:166 | a missing configuration means the defaults of `Config` |
| Simulator.Simulator.SeedSpores | Hyphaeizer/Simulator.cs:174-184 | makes `max(initialSpores, 0)` fresh, distinct spores, three draws each, whose states are `Seeds` of the samples |
| Simulator.Simulator.NewSeed | Hyphaeizer/Simulator.cs:177-183 | one seed from three draws |
| Simulator.Simulator.TickAll | Hyphaeizer/Simulator.cs:188-192 | the spores' new states are `TickedAll` of the old ones; all stay in the grid; the image holds the splats of every painted state |
| Simulator.Simulator.MaybeSplit | Hyphaeizer/Simulator.cs:194-198 | below the split probability, the split child of the drawn parent is appended (two draws); otherwise nothing changes (one draw) |
| Simulator.Simulator.Iterate | Hyphaeizer/Simulator.cs:186-199 | one iteration: the old spores' new states are `TickedAll` of their old states, drawing one spore sample each; the painted list grows by exactly those states and the image holds their splats; below the split probability the split child of the spore at the drawn index is appended (two draws), otherwise the list is unchanged (one draw); the spores stay distinct and in the grid |
| Simulator.Simulator.Round | Hyphaeizer/Simulator.cs:186-199 | one pass of the loop body: the tick's states, `TickedAll` of the states the spores began it with at the next spore draws, are appended to the history, and those starting states to the list of populations; the history stays chained, its concatenation stays the painted list, and its sizes still grow by at most one per tick |
| Simulator.Simulator.RunIterations | Hyphaeizer/Simulator.cs:186-199 | after `max(iterations, 0)` passes: one history entry per pass, chained to the population each pass began with, the first being the seeded spores' states; the first entry has the size of the seeded list and each next is at most one larger; the spores end between the seeded count and that plus the passes, with the last entry as the states of their prefix; one spore sample per painted state; the image holds the painted splats; with no pass the spores are unchanged |
| Simulator.Simulator.AddSeed | Hyphaeizer/Simulator.cs:177-183 | one pass of the seeding loop appends one fresh, distinct spore whose state is the next seed, after three draws |
| Simulator.ConcatSnoc | Hyphaeizer/Simulator.cs:186-192 | painting one more tick appends that tick's states to the concatenated history |
| Simulator.GrowsSnoc | Hyphaeizer/Simulator.cs:194-198 | a tick whose population is at most one larger than the previous keeps the history's growth law |
| Simulator.Simulator.GenerateSingleImage | Hyphaeizer/Simulator.cs:168-202 | returns a fresh `width x height` image holding the sum of the splats of `painted`, the concatenation of one list of states per tick (`max(iterations, 0)` lists); each list is `TickedAll` of the population its tick began with, the first population being `Seeds` of the instance generator's samples and each next one beginning with the previous tick's list; the first list has one state per seed and each next at most one more; the last list is a prefix of the final spores' states (a child split off in the last tick is not in it); the spore stream is drawn once per painted state; all painted states lie inside the grid; the spores end distinct and between `max(initialSpores, 0)` and `max(initialSpores, 0) + max(iterations, 0)` in number |
| Simulator.ChainSnoc | Hyphaeizer/Simulator.cs:186-199 | a tick whose list is `TickedAll` of its starting population, at the draws after the earlier ticks, extends a chained run |
| Simulator.ChainedAt | Hyphaeizer/Simulator.cs:186-199 | in a chained run, tick `i`'s list is `TickedAll` of the population it began with, at the spore draws after the states of ticks `0 .. i-1`; that population begins with tick `i-1`'s list |
| Canvas.Splat | Hyphaeizer/Simulator.cs:144-157 | the four deposits of `MakeColor`; `SplatIndexRules`, `SplatInGrid`, `SplatTotal` and `SplatConservesInk` state where they go and what they add |
| Canvas.WrapCeil | Hyphaeizer/Simulator.cs:146-147 | the ceiling index, or 0 when it reaches the size |
| Canvas.MakePixel | Hyphaeizer/Simulator.cs:152 | `penIntensity * rx * ry` in the allowed channels; `LatticeChannelOff` and `SplatTotal` state what its four uses add |
| Canvas.SimulatedImage.Get | Hyphaeizer/Simulator.cs:64 | the getter of the indexer; `Set` and `AddTo` state what it returns after a write |
| LegacySpores.Wrap | Hyphaeizer/Simulator.cs:132-135 | the wrap of one axis; `WrapCases` and `WrapInto` state its properties |
| LegacySpores.Ticked | Hyphaeizer/Simulator.cs:129-137 | the state after `Tick`; `TickIsTorusStep` and `TickInGrid` state its properties |
| Spores.Step | Hyphaeizer/Spores.cs:33-34 | the unclamped step; `Moved`, `MoveReflects` and `MoveLandsInGrid` state how `Move` treats it |
| Spores.Resamples | Hyphaeizer/Spores.cs:100 | the resampling test; `ResampleSchedule` states the ticks it holds on |
| Util.EffectiveEnd | Hyphaeizer/Util.cs:12 | the end -1 stands for `Length - 1`; any other end is kept |
| Pixels.HasFlag | Hyphaeizer/Simulator.cs:31-33 | the flag test; `Masked` and `ChannelValues` state that a channel carries the amount exactly when it holds |
| Simulator.SeedState | Hyphaeizer/Simulator.cs:177-183 | one seed from three samples; `SeedsInGrid` and `SeedHeading` state its bounds |
| Context.Nudge | Hyphaeizer/Simulator.cs:137 | the heading change of one draw; `NudgeBounds` states its range |

## Left out

- `SimulatedImage.PutOnFastWriteableBitmap` (Simulator.cs:68-90), `FastWriteableBitmap.cs` and `MainWindow.xaml.cs`: drawing to the screen and the user interface are I/O.
- Floating point: `float` channels and `double` coordinates, headings and speeds are exact reals. The `(float)` cast in `makePixel` and all rounding are not modelled.
- `Math.Cos` and `Math.Sin` are uninterpreted functions. The only fact used about them is that their values lie in [-1, 1]. `Math.PI` is the shortest decimal that rounds to that double (3.141592653589793), taken as an exact real.
- `System.Random` is a caller-supplied stream of samples in [0, 1), one per call. `Next(lo, hi)` is `lo + floor(u * (hi - lo))`. The single-argument `Next(max)` of Spores.cs:125 is `Next(0, max)`. The generator's algorithm and seeding are not modelled.
- The `#if DEBUG` block of Spores.cs:56-59 is left out; it only runs in debug builds.
- Spores.cs reads `sim.iterationCounter` and `sim.OverlayBitmap`, which Simulator.cs does not declare. Here they are parameters of `DecideAngleSighted`: the tick number and the overlay. Loading the overlay file is not part of this model.
- Spores.cs's `Spore` and the nested `Spore` of Simulator.cs cannot be compiled together. The generation loop of Simulator.cs drives the nested one, so `GenerateSingleImage` drives `LegacySpores.Spore`.
- Spores.cs's abstract class with subclasses `BlindSpore` and `SightedSpore` is one class here, with a `Variant` tag. The abstract `DecideAngle` is two methods, `DecideAngleBlind` and `DecideAngleSighted`.
- LegacySpores.Spore.Tick: the source tests `X < 0`, `Y < 0`, `X >= width`, `Y >= height` in that interleaved order. The model wraps X and then Y. The two axes are independent, so the result is the same.
- Exceptions are preconditions, not modelled error paths:
  - an index outside the grid in `MakeColor`, `Get`, `Set` and `GetPixel`;
  - `Random.Next` with `lo > hi`;
  - a negative image size;
  - the parent lookup in an empty spore list.
- Simulator.Simulator.GenerateSingleImage: requires spores that stay inside the grid. That means a non-empty grid, a speed shorter than both sides, and cosine and sine in [-1, 1]. The source itself demands none of this. A step longer than the grid would leave a wrapped spore outside it, and the next `MakeColor` would throw. With no initial spores, it requires that no split is drawn, because `spores[rng.Next(0, 0)]` throws.
- Simulator.Simulator.GenerateSingleImage: states the image as the sum of the splats of the ghost list `painted`, cut into one list per tick and chained tick by tick, not as a closed function of the samples. Of each tick's starting population it states only that it begins with the previous tick's list and has at most one more spore; which parent the extra spore split from, and the instance generator's split draws, are stated per iteration by `Iterate` and `MaybeSplit`. The last list is only a prefix of the final spores' states, because a child split off in the last tick never paints.
- Simulator.InkConserved: states the total ink as `Pens(pen, n)`, the pen added `n` times. `PensIsProduct` proves that this equals `n * penIntensity`.
- Util.SumByteArray: requires a non-empty range to lie inside the array. The source would throw `IndexOutOfRangeException` instead.
- Spores.ColumnSum: the weight loops' 32-bit `int` accumulators are unbounded here. They can only overflow on a line of more than 8 million pixels.
- Spores.Spore.Move: models the clamp as written (`else if`). No caller in this model depends on `Move` keeping the spore inside the grid. The corrected clamp is `ClampIntended`.

## Findings

| source | as written | input that shows it | evidently intended | confidence | as-written member | corrected member |
|---|---|---|---|---|---|---|
| Hyphaeizer/Spores.cs:41-42 | `else if` clamps Y only when X was not clamped | on a 4 x 4 grid, a spore at (3.9, 3.9) stepping (0.15, 0.15) is left at (3, 4.05), outside the grid; the next `MakeColor` indexes row 4 | clamp both axes independently (`if` instead of `else if`) | medium, not executed | Spores.CornerEscape | Spores.ClampIntended |
| Hyphaeizer/Spores.cs:125-126 | `values.First(t => (r -= t.Item1) <= 0)` with `r = Next(totalWeight)` in `[0, total)` | weights (0, 5, 0, 0) and draw 0: North is selected although it weighs nothing; in general North gets one draw too many and the last entry of non-zero weight one too few (nothing changes when these are the same entry, as with (5, 0, 0, 0)) | `< 0`: each direction is chosen for exactly as many draws as it weighs, keeping North when every weight is 0 | medium, not executed | Spores.ZeroWeightSelected | Spores.IntendedPick |
