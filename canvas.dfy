/** The accumulation image `SimulatedImage` of Hyphaeizer/Simulator.cs and
    the bilinear splat that both spore designs' `MakeColor` add into it. */
module Canvas {
  import opened Pixels

  /** `SimulatedImage`: a `width x height` grid of pixels, indexed `[x, y]`. */
  class SimulatedImage {
    const width: int
    const height: int
    const data: array2<Pixel>

    predicate Valid() {
      data.Length0 == width && data.Length1 == height
    }

    predicate Contains(x: int, y: int) {
      0 <= x < width && 0 <= y < height
    }

    /** `new SimulatedImage(width, height)`: every pixel is `default(Pixel)`.
        `new Pixel[width, height]` throws for a negative size. */
    constructor (width: int, height: int)
      requires 0 <= width && 0 <= height
      ensures Valid() && fresh(data)
      ensures this.width == width && this.height == height
      ensures forall x, y :: Contains(x, y) ==> data[x, y] == Black
    {
      this.width := width;
      this.height := height;
      data := new Pixel[width, height]((x, y) => Black);
    }

    /** The indexer's getter; it throws outside the grid. */
    function Get(x: int, y: int): Pixel
      requires Valid() && Contains(x, y)
      reads data
    {
      data[x, y]
    }

    /** The indexer's setter: only the addressed cell changes. */
    method Set(x: int, y: int, p: Pixel)
      requires Valid() && Contains(x, y)
      modifies data
      ensures data[x, y] == p
      ensures forall i, j :: Contains(i, j) && (i != x || j != y) ==> data[i, j] == old(data[i, j])
    {
      data[x, y] := p;
    }

    /** `img[x, y] += p`: the getter, `Pixel +`, then the setter. */
    method AddTo(x: int, y: int, p: Pixel)
      requires Valid() && Contains(x, y)
      modifies data
      ensures data[x, y] == old(data[x, y]).Plus(p)
      ensures forall i, j :: Contains(i, j) ==> data[i, j] == old(data[i, j]).Plus(Share(Deposit(x, y, p), i, j))
    {
      Set(x, y, Get(x, y).Plus(p));
    }

    /** The four `+=` statements of `MakeColor` for a spore at `(x, y)`
        (the same code in both spore designs). `(int)Math.Floor` of a
        coordinate indexes the grid unwrapped, so the coordinate must lie in
        it; every cell then ends up holding its old value plus what the
        splat addresses to it. */
    method DepositSplat(x: real, y: real, pen: real, mask: ChannelFlags)
      requires Valid()
      requires InGrid(x, y, width, height)
      modifies data
      ensures forall i, j :: Contains(i, j) ==>
        data[i, j] == old(data[i, j]).Plus(AddedAt(Splat(x, y, width, height, pen, mask), i, j))
    {
      ghost var ds := Splat(x, y, width, height, pen, mask);
      IndicesInGrid(x, width);
      IndicesInGrid(y, height);
      var x1, y1 := x.Floor, y.Floor;
      var x2, y2 := Ceil(x), Ceil(y);
      if x2 >= width { x2 := 0; }
      if y2 >= height { y2 := 0; }
      var rx2, ry2 := x - x1 as real, y - y1 as real;
      var rx1, ry1 := 1.0 - rx2, 1.0 - ry2;
      assert ds == Lattice(x1, y1, x2, y2, rx2, ry2, pen, mask) by {
        assert x2 == WrapCeil(x, width) && y2 == WrapCeil(y, height);
      }
      assert ds[0] == Deposit(x1, y1, MakePixel(pen, rx1, ry1, mask));
      assert ds[1] == Deposit(x2, y1, MakePixel(pen, rx2, ry1, mask));
      assert ds[2] == Deposit(x1, y2, MakePixel(pen, rx1, ry2, mask));
      assert ds[3] == Deposit(x2, y2, MakePixel(pen, rx2, ry2, mask));
      AddTo(x1, y1, MakePixel(pen, rx1, ry1, mask));
      label s1:
      AddTo(x2, y1, MakePixel(pen, rx2, ry1, mask));
      label s2:
      AddTo(x1, y2, MakePixel(pen, rx1, ry2, mask));
      label s3:
      AddTo(x2, y2, MakePixel(pen, rx2, ry2, mask));
      forall i, j | Contains(i, j)
        ensures data[i, j] == old(data[i, j]).Plus(AddedAt(ds, i, j))
      {
        FourShares(ds, i, j, old(data[i, j]), old@s1(data[i, j]), old@s2(data[i, j]), old@s3(data[i, j]), data[i, j]);
      }
    }
  }

  /** A continuous position inside `[0, width) x [0, height)`. */
  predicate InGrid(x: real, y: real, width: int, height: int) {
    0.0 <= x < width as real && 0.0 <= y < height as real
  }

  /** `(int)Math.Ceiling(v)`. */
  function Ceil(v: real): (c: int)
    ensures v <= c as real < v + 1.0
    ensures c == v.Floor <==> v == v.Floor as real
    ensures c != v.Floor ==> c == v.Floor + 1
  {
    -((-v).Floor)
  }

  /** The "next" lattice index of a coordinate: its ceiling, replaced by 0
      when it reaches the grid size. The floor index is never wrapped. */
  function WrapCeil(v: real, size: int): (c: int)
    ensures Ceil(v) >= size ==> c == 0
    ensures Ceil(v) < size ==> c == Ceil(v)
  {
    var c := Ceil(v);
    if c >= size then 0 else c
  }

  /** The local function `makePixel(rx, ry)` of `MakeColor`: the pen
      intensity scaled by both weights, in the allowed channels only. */
  function MakePixel(pen: real, rx: real, ry: real, mask: ChannelFlags): Pixel {
    Masked(pen * rx * ry, mask)
  }

  /** One `img[x, y] += p` statement of a splat. */
  datatype Deposit = Deposit(x: int, y: int, amount: Pixel)

  /** The four deposits of `MakeColor` at `(x, y)`, in statement order:
      bilinear weights `rx2 = x - x1`, `rx1 = 1 - rx2` (same for y), each
      amount `penIntensity * rx * ry` masked by the allowed channels. */
  function Splat(x: real, y: real, width: int, height: int, pen: real, mask: ChannelFlags): (ds: seq<Deposit>)
    ensures |ds| == 4
  {
    var x1, y1 := x.Floor, y.Floor;
    Lattice(x1, y1, WrapCeil(x, width), WrapCeil(y, height), x - x1 as real, y - y1 as real, pen, mask)
  }

  /** The four deposits for lattice indices `x1, y1, x2, y2` and fractional
      offsets `rx2, ry2`. */
  function Lattice(x1: int, y1: int, x2: int, y2: int, rx2: real, ry2: real, pen: real, mask: ChannelFlags): (ds: seq<Deposit>)
    ensures |ds| == 4
  {
    var rx1, ry1 := 1.0 - rx2, 1.0 - ry2;
    [ Deposit(x1, y1, MakePixel(pen, rx1, ry1, mask)),
      Deposit(x2, y1, MakePixel(pen, rx2, ry1, mask)),
      Deposit(x1, y2, MakePixel(pen, rx1, ry2, mask)),
      Deposit(x2, y2, MakePixel(pen, rx2, ry2, mask)) ]
  }

  /** What the deposits `ds`, applied in order, add to the cell `(x, y)`. */
  function AddedAt(ds: seq<Deposit>, x: int, y: int): Pixel {
    if ds == [] then Black
    else
      AddedAt(ds[..|ds| - 1], x, y).Plus(Share(ds[|ds| - 1], x, y))
  }

  /** What one deposit adds to the cell `(x, y)`. */
  function Share(d: Deposit, x: int, y: int): Pixel {
    if d.x == x && d.y == y then d.amount else Black
  }

  /** The sum of all amounts in `ds`, whatever cells they address. */
  function Total(ds: seq<Deposit>): Pixel {
    if ds == [] then Black else Total(ds[..|ds| - 1]).Plus(ds[|ds| - 1].amount)
  }

  /** Applying one more deposit of `ds` to a cell that held `start` plus
      the first `k` deposits' share leaves it holding `start` plus the first
      `k + 1` deposits' share. */
  lemma DepositStep(ds: seq<Deposit>, k: nat, i: int, j: int, start: Pixel, before: Pixel, after: Pixel)
    requires k < |ds|
    requires before == start.Plus(AddedAt(ds[..k], i, j))
    requires after == before.Plus(Share(ds[k], i, j))
    ensures after == start.Plus(AddedAt(ds[..k + 1], i, j))
  {
    assert ds[..k + 1][..k] == ds[..k];
  }

  /** A cell that received the shares of four deposits in turn holds its
      start value plus what the four add to it. */
  lemma FourShares(ds: seq<Deposit>, i: int, j: int, p0: Pixel, p1: Pixel, p2: Pixel, p3: Pixel, p4: Pixel)
    requires |ds| == 4
    requires p1 == p0.Plus(Share(ds[0], i, j)) && p2 == p1.Plus(Share(ds[1], i, j))
    requires p3 == p2.Plus(Share(ds[2], i, j)) && p4 == p3.Plus(Share(ds[3], i, j))
    ensures p4 == p0.Plus(AddedAt(ds, i, j))
  {
    assert ds[..0] == [];
    DepositStep(ds, 0, i, j, p0, p0, p1);
    DepositStep(ds, 1, i, j, p0, p1, p2);
    DepositStep(ds, 2, i, j, p0, p2, p3);
    DepositStep(ds, 3, i, j, p0, p3, p4);
    assert ds[..4] == ds;
  }

  /** A coordinate inside `[0, size)` has both lattice indices inside it. */
  lemma IndicesInGrid(v: real, size: int)
    requires 0.0 <= v < size as real
    ensures 0 <= v.Floor < size && 0 <= WrapCeil(v, size) < size
  {
  }

  /** The index rules of `MakeColor`: x1 = floor X, x2 = ceil X except that
      it is 0 exactly when ceil X reaches the width (y alike), the floor
      indices are never wrapped, and inside the grid all four are valid. */
  lemma SplatIndexRules(x: real, y: real, width: int, height: int, pen: real, mask: ChannelFlags)
    ensures var ds := Splat(x, y, width, height, pen, mask);
      ds[0].x == x.Floor && ds[0].y == y.Floor &&
      ds[2].x == x.Floor && ds[1].y == y.Floor &&
      ds[1].x == ds[3].x && ds[2].y == ds[3].y &&
      (ds[1].x == 0 <==> Ceil(x) >= width || Ceil(x) == 0) &&
      (Ceil(x) < width ==> ds[1].x == Ceil(x)) &&
      (ds[2].y == 0 <==> Ceil(y) >= height || Ceil(y) == 0) &&
      (Ceil(y) < height ==> ds[2].y == Ceil(y))
    ensures 0.0 <= x < width as real && 0.0 <= y < height as real ==>
      var ds := Splat(x, y, width, height, pen, mask);
      forall k :: 0 <= k < 4 ==> 0 <= ds[k].x < width && 0 <= ds[k].y < height
  {
  }

  /** Inside the grid, every deposit of a splat addresses a cell of the grid. */
  lemma SplatInGrid(x: real, y: real, width: int, height: int, pen: real, mask: ChannelFlags)
    requires InGrid(x, y, width, height)
    ensures var ds := Splat(x, y, width, height, pen, mask);
      forall k :: 0 <= k < |ds| ==> 0 <= ds[k].x < width && 0 <= ds[k].y < height
  {
    SplatIndexRules(x, y, width, height, pen, mask);
  }

  /** The wrap asymmetry: for a coordinate in the last column but not on it
      (say `width - 0.3`), the ceiling share goes to column 0 while the
      floor share stays in column `width - 1`. */
  lemma SplatWrapsCeilingOnly(x: real, y: real, width: int, height: int, pen: real, mask: ChannelFlags)
    requires (width - 1) as real < x < width as real
    ensures var ds := Splat(x, y, width, height, pen, mask);
      ds[0].x == width - 1 && ds[2].x == width - 1 && ds[1].x == 0 && ds[3].x == 0
  {
  }

  /** The bilinear weights sum to 1, so a splat carries exactly
      `penIntensity` in every allowed channel and nothing in the others. */
  lemma SplatTotal(x: real, y: real, width: int, height: int, pen: real, mask: ChannelFlags)
    ensures Total(Splat(x, y, width, height, pen, mask)) == Masked(pen, mask)
  {
    var x1, y1 := x.Floor, y.Floor;
    LatticeTotal(x1, y1, WrapCeil(x, width), WrapCeil(y, height), x - x1 as real, y - y1 as real, pen, mask);
  }

  lemma LatticeTotal(x1: int, y1: int, x2: int, y2: int, rx2: real, ry2: real, pen: real, mask: ChannelFlags)
    ensures Total(Lattice(x1, y1, x2, y2, rx2, ry2, pen, mask)) == Masked(pen, mask)
  {
    var ds := Lattice(x1, y1, x2, y2, rx2, ry2, pen, mask);
    TotalOfFour(ds[0], ds[1], ds[2], ds[3]);
    assert ds == [ds[0], ds[1], ds[2], ds[3]];
    WeightsSumToPen(pen, rx2, ry2, mask);
  }

  lemma TotalOfFour(d0: Deposit, d1: Deposit, d2: Deposit, d3: Deposit)
    ensures Total([d0, d1, d2, d3]) == d0.amount.Plus(d1.amount).Plus(d2.amount).Plus(d3.amount)
  {
    assert [d0][..0] == [] && [d0, d1][..1] == [d0] && [d0, d1, d2][..2] == [d0, d1] && [d0, d1, d2, d3][..3] == [d0, d1, d2];
    assert Total([d0]) == d0.amount by {
      PlusLaws(Black, d0.amount, Black);
    }
    assert Total([d0, d1]) == d0.amount.Plus(d1.amount);
    assert Total([d0, d1, d2]) == d0.amount.Plus(d1.amount).Plus(d2.amount);
  }

  lemma WeightsSumToPen(pen: real, rx2: real, ry2: real, mask: ChannelFlags)
    ensures var rx1, ry1 := 1.0 - rx2, 1.0 - ry2;
      MakePixel(pen, rx1, ry1, mask).Plus(MakePixel(pen, rx2, ry1, mask))
        .Plus(MakePixel(pen, rx1, ry2, mask)).Plus(MakePixel(pen, rx2, ry2, mask)) == Masked(pen, mask)
  {
    var rx1, ry1 := 1.0 - rx2, 1.0 - ry2;
    var w00, w10, w01, w11 := pen * rx1 * ry1, pen * rx2 * ry1, pen * rx1 * ry2, pen * rx2 * ry2;
    BilinearWeights(pen, rx2, ry2);
    MaskedSum4(w00, w10, w01, w11, mask);
  }

  lemma MaskedSum4(a: real, b: real, c: real, d: real, mask: ChannelFlags)
    ensures Masked(a, mask).Plus(Masked(b, mask)).Plus(Masked(c, mask)).Plus(Masked(d, mask)) == Masked(a + b + c + d, mask)
  {
    MaskedAdds(a, b, mask);
    MaskedAdds(a + b, c, mask);
    MaskedAdds(a + b + c, d, mask);
  }

  /** The four bilinear weights sum to 1. */
  lemma BilinearWeights(pen: real, rx2: real, ry2: real)
    ensures pen * (1.0 - rx2) * (1.0 - ry2) + pen * rx2 * (1.0 - ry2) + pen * (1.0 - rx2) * ry2 + pen * rx2 * ry2 == pen
  {
    var ry1 := 1.0 - ry2;
    assert pen * (1.0 - rx2) * ry1 + pen * rx2 * ry1 == pen * ry1;
    assert pen * (1.0 - rx2) * ry2 + pen * rx2 * ry2 == pen * ry2;
  }

  /** Deposits applied one batch after another add up. */
  lemma {:induction false} AddedAtAppend(a: seq<Deposit>, b: seq<Deposit>, x: int, y: int)
    ensures AddedAt(a + b, x, y) == AddedAt(a, x, y).Plus(AddedAt(b, x, y))
    decreases |b|
  {
    if b == [] {
      assert a + b == a;
    } else {
      var front := b[..|b| - 1];
      assert (a + b)[..|a + b| - 1] == a + front;
      assert (a + b)[|a + b| - 1] == b[|b| - 1];
      AddedAtAppend(a, front, x, y);
      PlusLaws(AddedAt(a, x, y), AddedAt(front, x, y), Share(b[|b| - 1], x, y));
    }
  }

  /** The sum, over the cells `cells`, of what `ds` adds to each. */
  function SumOver(ds: seq<Deposit>, cells: seq<(int, int)>): Pixel {
    if cells == [] then Black
    else
      var c := cells[|cells| - 1];
      SumOver(ds, cells[..|cells| - 1]).Plus(AddedAt(ds, c.0, c.1))
  }

  /** The sum, over the cells `cells`, of what `d` alone adds to each. */
  function ShareOver(d: Deposit, cells: seq<(int, int)>): Pixel {
    if cells == [] then Black
    else
      var c := cells[|cells| - 1];
      ShareOver(d, cells[..|cells| - 1]).Plus(Share(d, c.0, c.1))
  }

  predicate Distinct(cells: seq<(int, int)>) {
    forall a, b :: 0 <= a < b < |cells| ==> cells[a] != cells[b]
  }

  lemma {:induction false} SumOverSnoc(ds: seq<Deposit>, d: Deposit, cells: seq<(int, int)>)
    ensures SumOver(ds + [d], cells) == SumOver(ds, cells).Plus(ShareOver(d, cells))
  {
    if cells != [] {
      var c := cells[|cells| - 1];
      SumOverSnoc(ds, d, cells[..|cells| - 1]);
      assert (ds + [d])[..|ds + [d]| - 1] == ds;
    }
  }

  lemma {:induction false} ShareOverMissing(d: Deposit, cells: seq<(int, int)>)
    requires (d.x, d.y) !in cells
    ensures ShareOver(d, cells) == Black
  {
    if cells != [] {
      ShareOverMissing(d, cells[..|cells| - 1]);
    }
  }

  lemma {:induction false} ShareOverOnce(d: Deposit, cells: seq<(int, int)>)
    requires Distinct(cells) && (d.x, d.y) in cells
    ensures ShareOver(d, cells) == d.amount
  {
    var front, c := cells[..|cells| - 1], cells[|cells| - 1];
    assert cells == front + [c];
    if c == (d.x, d.y) {
      ShareOverMissing(d, front);
    } else {
      ShareOverOnce(d, front);
    }
  }

  /** Summed over any list of distinct cells that includes every addressed
      cell, the deposits add exactly their total, however many of them
      share a cell. */
  lemma {:induction false} SumOverCovering(ds: seq<Deposit>, cells: seq<(int, int)>)
    requires Distinct(cells)
    requires forall k :: 0 <= k < |ds| ==> (ds[k].x, ds[k].y) in cells
    ensures SumOver(ds, cells) == Total(ds)
  {
    if ds == [] {
      SumOverEmpty(cells);
    } else {
      var front, d := ds[..|ds| - 1], ds[|ds| - 1];
      assert ds == front + [d];
      SumOverCovering(front, cells);
      SumOverSnoc(front, d, cells);
      ShareOverOnce(d, cells);
    }
  }

  lemma {:induction false} SumOverEmpty(cells: seq<(int, int)>)
    ensures SumOver([], cells) == Black
  {
    if cells != [] {
      SumOverEmpty(cells[..|cells| - 1]);
    }
  }

  /** Conservation of ink: summed over the distinct cells it touches (two
      when x1 = x2 or y1 = y2, one at a lattice point, four otherwise), one
      splat adds `penIntensity` to every allowed channel and 0 to the others. */
  lemma SplatConservesInk(x: real, y: real, width: int, height: int, pen: real, mask: ChannelFlags, cells: seq<(int, int)>)
    requires Distinct(cells)
    requires forall k :: 0 <= k < 4 ==>
      (Splat(x, y, width, height, pen, mask)[k].x, Splat(x, y, width, height, pen, mask)[k].y) in cells
    ensures SumOver(Splat(x, y, width, height, pen, mask), cells) == Masked(pen, mask)
  {
    SumOverCovering(Splat(x, y, width, height, pen, mask), cells);
    SplatTotal(x, y, width, height, pen, mask);
  }

  /** A cell no deposit addresses gains nothing. */
  lemma {:induction false} AddedAtElsewhere(ds: seq<Deposit>, x: int, y: int)
    requires forall k :: 0 <= k < |ds| ==> ds[k].x != x || ds[k].y != y
    ensures AddedAt(ds, x, y) == Black
  {
    if ds != [] {
      AddedAtElsewhere(ds[..|ds| - 1], x, y);
    }
  }

  /** A channel that no deposit carries stays unchanged in every cell. */
  lemma {:induction false} AddedAtChannelOff(ds: seq<Deposit>, ch: Channel, x: int, y: int)
    requires forall k :: 0 <= k < |ds| ==> ch.Of(ds[k].amount) == 0.0
    ensures ch.Of(AddedAt(ds, x, y)) == 0.0
  {
    if ds != [] {
      AddedAtChannelOff(ds[..|ds| - 1], ch, x, y);
      ChannelValues(ch, 0.0, None, AddedAt(ds[..|ds| - 1], x, y), Share(ds[|ds| - 1], x, y));
    }
  }

  /** A channel the mask switches off gets nothing from any deposit. */
  lemma LatticeChannelOff(x1: int, y1: int, x2: int, y2: int, rx2: real, ry2: real, pen: real, mask: ChannelFlags, ch: Channel)
    requires !HasFlag(mask, ch.Flag())
    ensures var ds := Lattice(x1, y1, x2, y2, rx2, ry2, pen, mask);
      forall k :: 0 <= k < 4 ==> ch.Of(ds[k].amount) == 0.0
  {
    forall v: real ensures ch.Of(Masked(v, mask)) == 0.0 {
      ChannelValues(ch, v, mask, Black, Black);
    }
  }

  /** What a splat changes: only its (up to four) cells, and in them only
      the allowed channels. */
  lemma SplatFrame(x: real, y: real, width: int, height: int, pen: real, mask: ChannelFlags, i: int, j: int, ch: Channel)
    ensures var ds := Splat(x, y, width, height, pen, mask);
      (forall k :: 0 <= k < 4 ==> ds[k].x != i || ds[k].y != j) ==> AddedAt(ds, i, j) == Black
    ensures !HasFlag(mask, ch.Flag()) ==> ch.Of(AddedAt(Splat(x, y, width, height, pen, mask), i, j)) == 0.0
  {
    var ds := Splat(x, y, width, height, pen, mask);
    if forall k :: 0 <= k < 4 ==> ds[k].x != i || ds[k].y != j {
      AddedAtElsewhere(ds, i, j);
    }
    if !HasFlag(mask, ch.Flag()) {
      var x1, y1 := x.Floor, y.Floor;
      LatticeChannelOff(x1, y1, WrapCeil(x, width), WrapCeil(y, height), x - x1 as real, y - y1 as real, pen, mask, ch);
      AddedAtChannelOff(ds, ch, i, j);
    }
  }

  /** At a lattice point inside the grid (`MakeColor` at integer X and Y)
      the whole pen lands in that one cell. */
  lemma SplatAtLatticePoint(x: int, y: int, width: int, height: int, pen: real, mask: ChannelFlags)
    requires 0 <= x < width && 0 <= y < height
    ensures AddedAt(Splat(x as real, y as real, width, height, pen, mask), x, y) == Masked(pen, mask)
    ensures var ds := Splat(x as real, y as real, width, height, pen, mask);
      forall i, j :: i != x || j != y ==> AddedAt(ds, i, j) == Black
  {
    var ds := Splat(x as real, y as real, width, height, pen, mask);
    SplatConservesInk(x as real, y as real, width, height, pen, mask, [(x, y)]);
    assert SumOver(ds, [(x, y)]) == AddedAt(ds, x, y) by {
      assert [(x, y)][..0] == [];
      PlusLaws(Black, AddedAt(ds, x, y), Black);
    }
    forall i, j | i != x || j != y ensures AddedAt(ds, i, j) == Black {
      AddedAtElsewhere(ds, i, j);
    }
  }
}
