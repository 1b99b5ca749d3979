/** The integer coverage core (score.py): the relative ink mask of a luma band and its resizing to a
  * grid of 0-255 coverages. */
module CoverageGrid {
  import opened Words
  import opened DigitSegments

  // ----- the ink mask -----

  function RowLo(row: seq<int>): int
    requires |row| > 0
  {
    if |row| == 1 then row[0] else
    var rest := RowLo(row[..|row| - 1]);
    if row[|row| - 1] < rest then row[|row| - 1] else rest
  }

  function RowHi(row: seq<int>): int
    requires |row| > 0
  {
    if |row| == 1 then row[0] else
    var rest := RowHi(row[..|row| - 1]);
    if row[|row| - 1] > rest then row[|row| - 1] else rest
  }

  /** A band is a nonempty rectangle of luma values, row by row. */
  ghost predicate Band(band: seq<seq<int>>, w: nat)
  {
    |band| > 0 && w > 0 && forall y :: 0 <= y < |band| ==> |band[y]| == w
  }

  function RowLos(band: seq<seq<int>>, w: nat): (r: seq<int>)
    requires Band(band, w)
    ensures |r| == |band|
  {
    seq(|band|, y requires 0 <= y < |band| => RowLo(band[y]))
  }

  function RowHis(band: seq<seq<int>>, w: nat): (r: seq<int>)
    requires Band(band, w)
    ensures |r| == |band|
  {
    seq(|band|, y requires 0 <= y < |band| => RowHi(band[y]))
  }

  predicate Inked(v: int, lo: int, hi: int, num: int, den: int)
  {
    den * (v - lo) > num * (hi - lo)
  }

  /** `_ink_mask`: above the fraction `num / den` of the band's own luma range. */
  function InkMask(band: seq<seq<int>>, w: nat, num: int, den: int): (m: seq<seq<bool>>)
    requires Band(band, w)
    ensures |m| == |band| && forall y :: 0 <= y < |m| ==> |m[y]| == w
  {
    var lo, hi := RowLo(RowLos(band, w)), RowHi(RowHis(band, w));
    seq(|band|, y requires 0 <= y < |band| => MaskRow(band[y], lo, hi, num, den))
  }

  function ScaledRow(row: seq<int>, gain: int, offset: int): (r: seq<int>)
    ensures |r| == |row|
  {
    seq(|row|, x requires 0 <= x < |row| => gain * row[x] + offset)
  }

  function Scaled(band: seq<seq<int>>, gain: int, offset: int): (r: seq<seq<int>>)
    ensures |r| == |band|
  {
    seq(|band|, y requires 0 <= y < |band| => ScaledRow(band[y], gain, offset))
  }

  lemma GainKeepsOrder(a: int, b: int, gain: int, offset: int)
    requires gain > 0
    ensures gain * a + offset < gain * b + offset <==> a < b
  {
    if a < b {
      assert gain * (b - a) > 0;
    } else {
      assert gain * (a - b) >= 0;
    }
  }

  lemma {:induction false} RowLimitsScale(row: seq<int>, gain: int, offset: int)
    requires |row| > 0 && gain > 0
    ensures RowLo(ScaledRow(row, gain, offset)) == gain * RowLo(row) + offset
    ensures RowHi(ScaledRow(row, gain, offset)) == gain * RowHi(row) + offset
  {
    var n := |row| - 1;
    if n > 0 {
      RowLimitsScale(row[..n], gain, offset);
      assert ScaledRow(row, gain, offset)[..n] == ScaledRow(row[..n], gain, offset);
      GainKeepsOrder(row[n], RowLo(row[..n]), gain, offset);
      GainKeepsOrder(RowHi(row[..n]), row[n], gain, offset);
    }
  }

  lemma InkScales(v: int, lo: int, hi: int, num: int, den: int, gain: int, offset: int)
    requires gain > 0
    ensures Inked(gain * v + offset, gain * lo + offset, gain * hi + offset, num, den) == Inked(v, lo, hi, num, den)
  {
    var p, q := den * (v - lo), num * (hi - lo);
    assert den * ((gain * v + offset) - (gain * lo + offset)) == gain * p;
    assert num * ((gain * hi + offset) - (gain * lo + offset)) == gain * q;
    GainKeepsOrder(q, p, gain, 0);
  }

  lemma LimitsScale(band: seq<seq<int>>, w: nat, gain: int, offset: int)
    requires Band(band, w) && gain > 0
    ensures Band(Scaled(band, gain, offset), w)
    ensures RowLo(RowLos(Scaled(band, gain, offset), w)) == gain * RowLo(RowLos(band, w)) + offset
    ensures RowHi(RowHis(Scaled(band, gain, offset), w)) == gain * RowHi(RowHis(band, w)) + offset
  {
    var other := Scaled(band, gain, offset);
    forall y | 0 <= y < |band|
      ensures RowLo(other[y]) == gain * RowLo(band[y]) + offset && RowHi(other[y]) == gain * RowHi(band[y]) + offset
    {
      RowLimitsScale(band[y], gain, offset);
    }
    assert RowLos(other, w) == ScaledRow(RowLos(band, w), gain, offset);
    assert RowHis(other, w) == ScaledRow(RowHis(band, w), gain, offset);
    RowLimitsScale(RowLos(band, w), gain, offset);
    RowLimitsScale(RowHis(band, w), gain, offset);
  }

  function MaskRow(row: seq<int>, lo: int, hi: int, num: int, den: int): (r: seq<bool>)
    ensures |r| == |row|
  {
    seq(|row|, x requires 0 <= x < |row| => Inked(row[x], lo, hi, num, den))
  }

  lemma MaskRowScales(row: seq<int>, lo: int, hi: int, num: int, den: int, gain: int, offset: int)
    requires gain > 0
    ensures MaskRow(ScaledRow(row, gain, offset), gain * lo + offset, gain * hi + offset, num, den)
            == MaskRow(row, lo, hi, num, den)
  {
    forall x | 0 <= x < |row|
      ensures MaskRow(ScaledRow(row, gain, offset), gain * lo + offset, gain * hi + offset, num, den)[x]
              == MaskRow(row, lo, hi, num, den)[x]
    {
      InkScales(row[x], lo, hi, num, den, gain, offset);
    }
  }

  /** A positive gain and any offset on luma leave the mask, and so every run and every coverage,
    * unchanged. */
  lemma GainAndOffsetIrrelevant(band: seq<seq<int>>, w: nat, num: int, den: int, gain: int, offset: int)
    requires Band(band, w) && gain > 0
    ensures Band(Scaled(band, gain, offset), w)
    ensures InkMask(Scaled(band, gain, offset), w, num, den) == InkMask(band, w, num, den)
  {
    var other := Scaled(band, gain, offset);
    LimitsScale(band, w, gain, offset);
    var lo, hi := RowLo(RowLos(band, w)), RowHi(RowHis(band, w));
    forall y | 0 <= y < |band|
      ensures InkMask(other, w, num, den)[y] == InkMask(band, w, num, den)[y]
    {
      MaskRowScales(band[y], lo, hi, num, den, gain, offset);
    }
  }

  // ----- grid edges -----

  /** `_edge`: `i * extent / n` rounded half up. */
  function Edge(i: nat, extent: nat, n: nat): nat
    requires n > 0
  {
    (2 * i * extent + n) / (2 * n)
  }

  lemma EdgeEnds(extent: nat, n: nat)
    requires n > 0
    ensures Edge(0, extent, n) == 0 && Edge(n, extent, n) == extent
  {
    DivUnique(n, 2 * n, 0, n);
    assert 2 * n * extent + n == extent * (2 * n) + n;
    DivUnique(2 * n * extent + n, 2 * n, extent, n);
  }

  lemma DivMonotone(a: nat, b: nat, d: nat, k: nat)
    requires d > 0 && a + k * d <= b
    ensures a / d + k <= b / d
  {
    var q, p := a / d, b / d;
    assert a == q * d + a % d && b == p * d + b % d;
    if p < q + k {
      assert (q + k - p) * d >= d by { MulAtLeast(q + k - p, d); }
      assert false;
    }
  }

  lemma EdgeAdvances(i: nat, extent: nat, n: nat)
    requires n > 0
    ensures Edge(i, extent, n) <= Edge(i + 1, extent, n)
    ensures extent >= n ==> Edge(i, extent, n) < Edge(i + 1, extent, n)
  {
    var a := 2 * i * extent + n;
    assert 2 * (i + 1) * extent + n == a + 2 * extent;
    DivMonotone(a, a + 2 * extent, 2 * n, 0);
    if extent >= n {
      DivMonotone(a, a + 2 * extent, 2 * n, 1);
    }
  }

  lemma {:induction false} EdgeWithin(i: nat, extent: nat, n: nat)
    requires n > 0 && i <= n
    ensures Edge(i, extent, n) <= extent
    decreases n - i
  {
    if i == n {
      EdgeEnds(extent, n);
    } else {
      EdgeAdvances(i, extent, n);
      EdgeWithin(i + 1, extent, n);
    }
  }

  ghost predicate EveryCellWide(extent: nat, n: nat)
    requires n > 0
  {
    forall i: nat :: i < n ==> Edge(i, extent, n) < Edge(i + 1, extent, n)
  }

  lemma {:induction false} WideCellsAddUp(k: nat, extent: nat, n: nat)
    requires n > 0 && k <= n && EveryCellWide(extent, n)
    ensures k <= Edge(k, extent, n)
  {
    if k > 0 {
      WideCellsAddUp(k - 1, extent, n);
    }
  }

  /** The edges run from 0 to the extent without turning back, and no two coincide exactly when the
    * box is at least grid-sized. */
  lemma EdgesTile(extent: nat, n: nat)
    requires n > 0
    ensures Edge(0, extent, n) == 0 && Edge(n, extent, n) == extent
    ensures forall i: nat :: i < n ==> Edge(i, extent, n) <= Edge(i + 1, extent, n)
    ensures EveryCellWide(extent, n) <==> extent >= n
  {
    EdgeEnds(extent, n);
    forall i: nat | i < n
      ensures Edge(i, extent, n) <= Edge(i + 1, extent, n)
      ensures extent >= n ==> Edge(i, extent, n) < Edge(i + 1, extent, n)
    {
      EdgeAdvances(i, extent, n);
    }
    if EveryCellWide(extent, n) {
      WideCellsAddUp(n, extent, n);
    }
  }

  // ----- cells -----

  ghost predicate Mask(m: seq<seq<bool>>, w: nat) { forall y :: 0 <= y < |m| ==> |m[y]| == w }

  function RowInk(row: seq<bool>, xa: nat, xb: nat): (ink: nat)
    requires xa <= xb <= |row|
    ensures ink <= xb - xa
  {
    if xa == xb then 0 else RowInk(row, xa, xb - 1) + if row[xb - 1] then 1 else 0
  }

  /** Inked pixels of a block. */
  function Ink(m: seq<seq<bool>>, w: nat, ya: nat, yb: nat, xa: nat, xb: nat): (ink: nat)
    requires Mask(m, w) && ya <= yb <= |m| && xa <= xb <= w
  {
    if ya == yb then 0 else Ink(m, w, ya, yb - 1, xa, xb) + RowInk(m[yb - 1], xa, xb)
  }

  /** Where cell `i` ends: at the next edge, but at least one past its start unless that leaves the box. */
  function CellEnd(i: nat, extent: nat, n: nat): (b: nat)
    requires n > 0 && i < n
    ensures Edge(i, extent, n) <= b <= extent
  {
    EdgeWithin(i, extent, n);
    var next := Edge(i + 1, extent, n);
    var b := if Edge(i, extent, n) + 1 > next then Edge(i, extent, n) + 1 else next;
    if extent < b then extent else b
  }

  function CellInk(m: seq<seq<bool>>, w: nat, rows: nat, cols: nat, r: nat, c: nat): nat
    requires Mask(m, w) && r < rows && c < cols
  {
    Ink(m, w, Edge(r, |m|, rows), CellEnd(r, |m|, rows), Edge(c, w, cols), CellEnd(c, w, cols))
  }

  function Area(a: nat, b: nat): nat { a * b }

  function CellSize(i: nat, extent: nat, n: nat): nat
    requires n > 0 && i < n
  {
    CellEnd(i, extent, n) - Edge(i, extent, n)
  }

  function CellPixels(h: nat, w: nat, rows: nat, cols: nat, r: nat, c: nat): nat
    requires r < rows && c < cols
  {
    Area(CellSize(r, h, rows), CellSize(c, w, cols))
  }

  /** The share of ink scaled to 255, rounded half up in integers; an empty cell is 0. */
  function Coverage(ink: nat, pixels: nat): nat
  {
    if pixels == 0 then 0 else (ink * 255 + pixels / 2) / pixels
  }

  function CellCoverage(m: seq<seq<bool>>, w: nat, rows: nat, cols: nat, r: nat, c: nat): nat
    requires Mask(m, w) && r < rows && c < cols
  {
    Coverage(CellInk(m, w, rows, cols, r, c), CellPixels(|m|, w, rows, cols, r, c))
  }

  /** The first `c` cells of grid row `r`. */
  function GridRow(m: seq<seq<bool>>, w: nat, rows: nat, cols: nat, r: nat, c: nat): (g: seq<nat>)
    requires Mask(m, w) && r < rows && c <= cols
    ensures |g| == c
  {
    seq(c, i requires 0 <= i < c => CellCoverage(m, w, rows, cols, r, i))
  }

  function Grid(m: seq<seq<bool>>, w: nat, rows: nat, cols: nat, r: nat): (g: seq<nat>)
    requires Mask(m, w) && r <= rows
    ensures |g| == r * cols
  {
    if r == 0 then [] else Grid(m, w, rows, cols, r - 1) + GridRow(m, w, rows, cols, r - 1, cols)
  }

  lemma RowGrows(m: seq<seq<bool>>, w: nat, rows: nat, cols: nat, r: nat, c: nat)
    requires Mask(m, w) && r < rows && c < cols
    ensures GridRow(m, w, rows, cols, r, c + 1)
            == GridRow(m, w, rows, cols, r, c) + [CellCoverage(m, w, rows, cols, r, c)]
  {
  }

  /** With no pixels at all every entry is 0. */
  lemma {:induction false} EmptyGrid(m: seq<seq<bool>>, w: nat, rows: nat, cols: nat, r: nat)
    requires Mask(m, w) && r <= rows && (|m| == 0 || w == 0)
    ensures Grid(m, w, rows, cols, r) == seq(r * cols, _ => 0)
  {
    if r > 0 {
      var k := r - 1;
      EmptyGrid(m, w, rows, cols, k);
      forall c | 0 <= c < cols
        ensures CellCoverage(m, w, rows, cols, k, c) == 0
      {
      }
      assert GridRow(m, w, rows, cols, k, cols) == seq(cols, _ => 0);
    }
  }

  /** `_cov_grid`, cells in row-major order. */
  method CovGrid(m: seq<seq<bool>>, w: nat, rows: nat, cols: nat) returns (g: seq<nat>)
    requires Mask(m, w)
    ensures g == Grid(m, w, rows, cols, rows)
  {
    if |m| == 0 || w == 0 {
      EmptyGrid(m, w, rows, cols, rows);
      return seq(rows * cols, _ => 0);
    }
    g := [];
    for r := 0 to rows
      invariant g == Grid(m, w, rows, cols, r)
    {
      var ya, yb := Edge(r, |m|, rows), CellEnd(r, |m|, rows);
      for c := 0 to cols
        invariant g == Grid(m, w, rows, cols, r) + GridRow(m, w, rows, cols, r, c)
      {
        var xa, xb := Edge(c, w, cols), CellEnd(c, w, cols);
        var cell := Coverage(Ink(m, w, ya, yb, xa, xb), Area(yb - ya, xb - xa));
        RowGrows(m, w, rows, cols, r, c);
        g := g + [cell];
      }
    }
  }

  lemma {:induction false} GridAt(m: seq<seq<bool>>, w: nat, rows: nat, cols: nat, n: nat, r: nat, c: nat)
    requires Mask(m, w) && r < n <= rows && c < cols
    ensures r * cols + c < |Grid(m, w, rows, cols, n)|
    ensures Grid(m, w, rows, cols, n)[r * cols + c] == CellCoverage(m, w, rows, cols, r, c)
  {
    if r < n - 1 {
      GridAt(m, w, rows, cols, n - 1, r, c);
    }
  }

  lemma {:induction false} InkFits(m: seq<seq<bool>>, w: nat, ya: nat, yb: nat, xa: nat, xb: nat)
    requires Mask(m, w) && ya <= yb <= |m| && xa <= xb <= w
    ensures Ink(m, w, ya, yb, xa, xb) <= Area(yb - ya, xb - xa)
  {
    if ya < yb {
      InkFits(m, w, ya, yb - 1, xa, xb);
      assert (yb - ya) * (xb - xa) == (yb - 1 - ya) * (xb - xa) + (xb - xa);
    }
  }

  lemma CoverageRounds(ink: nat, pixels: nat)
    requires ink <= pixels
    ensures Coverage(ink, pixels) <= 255
    ensures 0 - pixels <= 2 * (Coverage(ink, pixels) * pixels - 255 * ink) <= pixels
  {
    if pixels > 0 {
      var a := ink * 255 + pixels / 2;
      var q := a / pixels;
      assert a == q * pixels + a % pixels;
      if q > 255 {
        MulAtLeast(q - 255, pixels);
        assert false;
      }
    }
  }

  lemma CellRounds(m: seq<seq<bool>>, w: nat, rows: nat, cols: nat, r: nat, c: nat)
    requires Mask(m, w) && r < rows && c < cols
    ensures var px := CellPixels(|m|, w, rows, cols, r, c);
            var v := CellCoverage(m, w, rows, cols, r, c);
            && 0 <= v <= 255
            && (px == 0 ==> v == 0)
            && 0 - px <= 2 * (v * px - 255 * CellInk(m, w, rows, cols, r, c)) <= px
  {
    InkFits(m, w, Edge(r, |m|, rows), CellEnd(r, |m|, rows), Edge(c, w, cols), CellEnd(c, w, cols));
    var px, ink := CellPixels(|m|, w, rows, cols, r, c), CellInk(m, w, rows, cols, r, c);
    CoverageRounds(ink, px);
  }

  /** Every grid entry is a byte, and is the cell's share of ink to the nearest 255th. */
  lemma CoverageIsNearest(m: seq<seq<bool>>, w: nat, rows: nat, cols: nat, r: nat, c: nat)
    requires Mask(m, w) && r < rows && c < cols
    ensures r * cols + c < |Grid(m, w, rows, cols, rows)|
    ensures var px := CellPixels(|m|, w, rows, cols, r, c);
            var v := Grid(m, w, rows, cols, rows)[r * cols + c];
            && 0 <= v <= 255
            && (px == 0 ==> v == 0)
            && 0 - px <= 2 * (v * px - 255 * CellInk(m, w, rows, cols, r, c)) <= px
  {
    GridAt(m, w, rows, cols, rows, r, c);
    CellRounds(m, w, rows, cols, r, c);
  }

  // ----- total ink -----

  lemma {:induction false} RowInkSplits(row: seq<bool>, xa: nat, xm: nat, xb: nat)
    requires xa <= xm <= xb <= |row|
    ensures RowInk(row, xa, xb) == RowInk(row, xa, xm) + RowInk(row, xm, xb)
  {
    if xm < xb {
      RowInkSplits(row, xa, xm, xb - 1);
    }
  }

  lemma {:induction false} InkSplitsAcross(m: seq<seq<bool>>, w: nat, ya: nat, yb: nat, xa: nat, xm: nat, xb: nat)
    requires Mask(m, w) && ya <= yb <= |m| && xa <= xm <= xb <= w
    ensures Ink(m, w, ya, yb, xa, xb) == Ink(m, w, ya, yb, xa, xm) + Ink(m, w, ya, yb, xm, xb)
  {
    if ya < yb {
      InkSplitsAcross(m, w, ya, yb - 1, xa, xm, xb);
      RowInkSplits(m[yb - 1], xa, xm, xb);
    }
  }

  lemma {:induction false} InkSplitsDown(m: seq<seq<bool>>, w: nat, ya: nat, ym: nat, yb: nat, xa: nat, xb: nat)
    requires Mask(m, w) && ya <= ym <= yb <= |m| && xa <= xb <= w
    ensures Ink(m, w, ya, yb, xa, xb) == Ink(m, w, ya, ym, xa, xb) + Ink(m, w, ym, yb, xa, xb)
  {
    if ym < yb {
      InkSplitsDown(m, w, ya, ym, yb - 1, xa, xb);
    }
  }

  /** Ink counted by the first `c` cells of grid row `r`, and by the first `r` grid rows. */
  function RowTotal(m: seq<seq<bool>>, w: nat, rows: nat, cols: nat, r: nat, c: nat): nat
    requires Mask(m, w) && r < rows && c <= cols
  {
    if c == 0 then 0 else RowTotal(m, w, rows, cols, r, c - 1) + CellInk(m, w, rows, cols, r, c - 1)
  }

  function Total(m: seq<seq<bool>>, w: nat, rows: nat, cols: nat, r: nat): nat
    requires Mask(m, w) && r <= rows
  {
    if r == 0 then 0 else Total(m, w, rows, cols, r - 1) + RowTotal(m, w, rows, cols, r - 1, cols)
  }

  lemma EndIsNextEdge(i: nat, extent: nat, n: nat)
    requires n > 0 && i < n <= extent
    ensures CellEnd(i, extent, n) == Edge(i + 1, extent, n)
  {
    EdgeAdvances(i, extent, n);
    EdgeWithin(i + 1, extent, n);
  }

  lemma {:induction false} RowTelescopes(m: seq<seq<bool>>, w: nat, rows: nat, cols: nat, r: nat, c: nat)
    requires Mask(m, w) && r < rows && c <= cols <= w && cols > 0
    ensures Edge(c, w, cols) <= w
    ensures RowTotal(m, w, rows, cols, r, c)
            == Ink(m, w, Edge(r, |m|, rows), CellEnd(r, |m|, rows), 0, Edge(c, w, cols))
  {
    var ya, yb := Edge(r, |m|, rows), CellEnd(r, |m|, rows);
    EdgeEnds(w, cols);
    EdgeWithin(c, w, cols);
    if c == 0 {
      EmptyBlock(m, w, ya, yb, 0);
    } else {
      RowTelescopes(m, w, rows, cols, r, c - 1);
      EndIsNextEdge(c - 1, w, cols);
      InkSplitsAcross(m, w, ya, yb, 0, Edge(c - 1, w, cols), Edge(c, w, cols));
    }
  }

  lemma {:induction false} EmptyBlock(m: seq<seq<bool>>, w: nat, ya: nat, yb: nat, x: nat)
    requires Mask(m, w) && ya <= yb <= |m| && x <= w
    ensures Ink(m, w, ya, yb, x, x) == 0
  {
    if ya < yb {
      EmptyBlock(m, w, ya, yb - 1, x);
    }
  }

  lemma {:induction false} TotalTelescopes(m: seq<seq<bool>>, w: nat, rows: nat, cols: nat, r: nat)
    requires Mask(m, w) && r <= rows <= |m| && 0 < cols <= w && rows > 0
    ensures Edge(r, |m|, rows) <= |m|
    ensures Total(m, w, rows, cols, r) == Ink(m, w, 0, Edge(r, |m|, rows), 0, w)
  {
    EdgeEnds(|m|, rows);
    EdgeWithin(r, |m|, rows);
    if r > 0 {
      TotalTelescopes(m, w, rows, cols, r - 1);
      RowTelescopes(m, w, rows, cols, r - 1, cols);
      EdgeEnds(w, cols);
      EndIsNextEdge(r - 1, |m|, rows);
      InkSplitsDown(m, w, 0, Edge(r - 1, |m|, rows), Edge(r, |m|, rows), 0, w);
    }
  }

  /** The ink counted by the cells of a box at least grid-sized is the ink of the box. */
  lemma InkPreserved(m: seq<seq<bool>>, w: nat, rows: nat, cols: nat)
    requires Mask(m, w) && 0 < rows <= |m| && 0 < cols <= w
    ensures Total(m, w, rows, cols, rows) == Ink(m, w, 0, |m|, 0, w)
  {
    TotalTelescopes(m, w, rows, cols, rows);
    EdgeEnds(|m|, rows);
  }

  predicate InCell(i: nat, extent: nat, n: nat, at: nat)
    requires n > 0 && i < n
  {
    Edge(i, extent, n) <= at < CellEnd(i, extent, n)
  }

  lemma {:induction false} EdgesClimb(i: nat, j: nat, extent: nat, n: nat)
    requires n > 0 && i <= j
    ensures Edge(i, extent, n) <= Edge(j, extent, n)
    decreases j
  {
    if i < j {
      EdgesClimb(i, j - 1, extent, n);
      EdgeAdvances(j - 1, extent, n);
    }
  }

  lemma {:induction false} CellBelow(k: nat, extent: nat, n: nat, at: nat) returns (i: nat)
    requires 0 < n <= extent && k <= n && at < Edge(k, extent, n)
    ensures i < k && InCell(i, extent, n, at)
  {
    EdgeEnds(extent, n);
    i := k - 1;
    EndIsNextEdge(i, extent, n);
    if at < Edge(i, extent, n) {
      i := CellBelow(i, extent, n, at);
    }
  }

  /** Along each side of a box at least grid-sized, every pixel is in exactly one cell. */
  lemma OneCellEach(extent: nat, n: nat, at: nat) returns (i: nat)
    requires 0 < n <= extent && at < extent
    ensures i < n && InCell(i, extent, n, at)
    ensures forall j: nat | j < n && j != i :: !InCell(j, extent, n, at)
  {
    EdgeEnds(extent, n);
    i := CellBelow(n, extent, n, at);
    EndIsNextEdge(i, extent, n);
    forall j: nat | j < n && j != i
      ensures !InCell(j, extent, n, at)
    {
      EndIsNextEdge(j, extent, n);
      if j < i { EdgesClimb(j + 1, i, extent, n); } else { EdgesClimb(i + 1, j, extent, n); }
    }
  }

  lemma PixelInOneCell(h: nat, w: nat, rows: nat, cols: nat, y: nat, x: nat) returns (r: nat, c: nat)
    requires 0 < rows <= h && 0 < cols <= w && y < h && x < w
    ensures r < rows && c < cols && InCell(r, h, rows, y) && InCell(c, w, cols, x)
    ensures forall r': nat, c': nat | r' < rows && c' < cols && InCell(r', h, rows, y) && InCell(c', w, cols, x) ::
              r' == r && c' == c
  {
    r := OneCellEach(h, rows, y);
    c := OneCellEach(w, cols, x);
  }

  // ----- what a reader of the mask sees -----

  /** Inked pixels per column, the input of the segmentation. */
  function ColumnInk(m: seq<seq<bool>>, w: nat): (col: seq<nat>)
    requires Mask(m, w)
    ensures |col| == w
  {
    seq(w, x requires 0 <= x < w => Ink(m, w, 0, |m|, x, x + 1))
  }

  /** So neither the runs of a band nor the coverages of any part of its mask depend on gain and offset. */
  lemma ReadingUnchanged(band: seq<seq<int>>, w: nat, num: int, den: int, gain: int, offset: int)
    requires Band(band, w) && gain > 0
    ensures Band(Scaled(band, gain, offset), w)
    ensures var m, m' := InkMask(band, w, num, den), InkMask(Scaled(band, gain, offset), w, num, den);
      && (forall minGap: nat, runs :: Segmentation(ColumnInk(m', w), minGap, runs) <==> Segmentation(ColumnInk(m, w), minGap, runs))
      && forall rows: nat, cols: nat :: Grid(m', w, rows, cols, rows) == Grid(m, w, rows, cols, rows)
  {
    GainAndOffsetIrrelevant(band, w, num, den, gain, offset);
  }

  // ----- mask, cells and entries without the functions above -----

  /** `v` is the least value of the band, `Greatest` its greatest. */
  ghost predicate Least(band: seq<seq<int>>, w: nat, v: int)
    requires Band(band, w)
  {
    && (forall y, x :: 0 <= y < |band| && 0 <= x < w ==> v <= band[y][x])
    && exists y, x :: 0 <= y < |band| && 0 <= x < w && band[y][x] == v
  }

  ghost predicate Greatest(band: seq<seq<int>>, w: nat, v: int)
    requires Band(band, w)
  {
    && (forall y, x :: 0 <= y < |band| && 0 <= x < w ==> band[y][x] <= v)
    && exists y, x :: 0 <= y < |band| && 0 <= x < w && band[y][x] == v
  }

  lemma {:induction false} RowExtremes(row: seq<int>) returns (a: nat, b: nat)
    requires |row| > 0
    ensures a < |row| && row[a] == RowLo(row) && b < |row| && row[b] == RowHi(row)
    ensures forall x :: 0 <= x < |row| ==> RowLo(row) <= row[x] <= RowHi(row)
  {
    var n := |row| - 1;
    if n == 0 {
      a, b := 0, 0;
    } else {
      a, b := RowExtremes(row[..n]);
      assert forall x :: 0 <= x < n ==> row[..n][x] == row[x];
      if row[n] < RowLo(row[..n]) { a := n; }
      if row[n] > RowHi(row[..n]) { b := n; }
    }
  }

  lemma BandExtremes(band: seq<seq<int>>, w: nat)
    requires Band(band, w)
    ensures Least(band, w, RowLo(RowLos(band, w))) && Greatest(band, w, RowHi(RowHis(band, w)))
  {
    var los, his := RowLos(band, w), RowHis(band, w);
    var a, _ := RowExtremes(los);
    var _, b := RowExtremes(his);
    var xa, _ := RowExtremes(band[a]);
    var _, xb := RowExtremes(band[b]);
    assert band[a][xa] == RowLo(los) && band[b][xb] == RowHi(his);
    forall y, x | 0 <= y < |band| && 0 <= x < w
      ensures RowLo(los) <= band[y][x] <= RowHi(his)
    {
      var _, _ := RowExtremes(band[y]);
      assert los[y] == RowLo(band[y]) && his[y] == RowHi(band[y]);
    }
  }

  /** A pixel is inked exactly when it lies above the fraction num / den of the way from the band's least
    * value to its greatest. */
  lemma MaskMeans(band: seq<seq<int>>, w: nat, num: int, den: int) returns (lo: int, hi: int)
    requires Band(band, w)
    ensures Least(band, w, lo) && Greatest(band, w, hi)
    ensures forall y, x :: 0 <= y < |band| && 0 <= x < w ==>
              (InkMask(band, w, num, den)[y][x] <==> den * (band[y][x] - lo) > num * (hi - lo))
  {
    lo, hi := RowLo(RowLos(band, w)), RowHi(RowHis(band, w));
    BandExtremes(band, w);
  }

  /** `e` is i * extent / n to the nearest integer, halves upwards. */
  predicate Nearest(e: int, i: nat, extent: nat, n: nat) { 2 * n * e <= 2 * i * extent + n < 2 * n * e + 2 * n }

  lemma EdgeIsNearest(i: nat, extent: nat, n: nat)
    requires n > 0
    ensures Nearest(Edge(i, extent, n), i, extent, n)
  {
    var a, d := 2 * i * extent + n, 2 * n;
    assert a == (a / d) * d + a % d;
  }

  /** The inked pixels of a block. */
  ghost function Pixels(m: seq<seq<bool>>, w: nat, ya: nat, yb: nat, xa: nat, xb: nat): set<(nat, nat)>
    requires Mask(m, w) && yb <= |m| && xb <= w
  {
    set y: nat, x: nat | ya <= y < yb && xa <= x < xb && m[y][x] :: (y, x)
  }

  lemma {:induction false} RowInkCounts(m: seq<seq<bool>>, w: nat, y: nat, xa: nat, xb: nat)
    requires Mask(m, w) && y < |m| && xa <= xb <= w
    ensures RowInk(m[y], xa, xb) == |Pixels(m, w, y, y + 1, xa, xb)|
  {
    if xa == xb {
      assert Pixels(m, w, y, y + 1, xa, xb) == {};
    } else {
      RowInkCounts(m, w, y, xa, xb - 1);
      assert Pixels(m, w, y, y + 1, xa, xb)
          == Pixels(m, w, y, y + 1, xa, xb - 1) + (if m[y][xb - 1] then {(y, xb - 1)} else {});
    }
  }

  lemma {:induction false} InkCounts(m: seq<seq<bool>>, w: nat, ya: nat, yb: nat, xa: nat, xb: nat)
    requires Mask(m, w) && ya <= yb <= |m| && xa <= xb <= w
    ensures Ink(m, w, ya, yb, xa, xb) == |Pixels(m, w, ya, yb, xa, xb)|
  {
    if ya == yb {
      assert Pixels(m, w, ya, yb, xa, xb) == {};
    } else {
      InkCounts(m, w, ya, yb - 1, xa, xb);
      RowInkCounts(m, w, yb - 1, xa, xb);
      var above, row := Pixels(m, w, ya, yb - 1, xa, xb), Pixels(m, w, yb - 1, yb, xa, xb);
      assert Pixels(m, w, ya, yb, xa, xb) == above + row && above !! row;
    }
  }

  /** Cell `i` reaches from its edge `a` to the `next` one, at least one pixel further, and not past the end. */
  predicate Reaches(a: nat, b: nat, next: nat, i: nat, extent: nat, n: nat)
  {
    && Nearest(a, i, extent, n) && Nearest(next, i + 1, extent, n) && a <= b <= extent
    && b == (if next > a then if next < extent then next else extent else if a + 1 < extent then a + 1 else extent)
  }

  ghost predicate IsCell(a: nat, b: nat, i: nat, extent: nat, n: nat) { exists next: nat :: Reaches(a, b, next, i, extent, n) }

  lemma CellIsCell(i: nat, extent: nat, n: nat)
    requires n > 0 && i < n
    ensures IsCell(Edge(i, extent, n), CellEnd(i, extent, n), i, extent, n)
  {
    EdgeIsNearest(i, extent, n);
    EdgeIsNearest(i + 1, extent, n);
    EdgeWithin(i, extent, n);
    assert Reaches(Edge(i, extent, n), CellEnd(i, extent, n), Edge(i + 1, extent, n), i, extent, n);
  }

  /** The entry of row `r` and column `c`: its cell's share of inked pixels in 255ths, to the nearest with
    * halves upwards, and 0 for a cell without pixels. */
  lemma EntryMeans(m: seq<seq<bool>>, w: nat, rows: nat, cols: nat, r: nat, c: nat)
      returns (ya: nat, yb: nat, xa: nat, xb: nat)
    requires Mask(m, w) && r < rows && c < cols
    ensures IsCell(ya, yb, r, |m|, rows) && IsCell(xa, xb, c, w, cols)
    ensures r * cols + c < |Grid(m, w, rows, cols, rows)|
    ensures var v, px := Grid(m, w, rows, cols, rows)[r * cols + c], (yb - ya) * (xb - xa);
      if px == 0 then v == 0 else 0 - px < 2 * (v * px - 255 * |Pixels(m, w, ya, yb, xa, xb)|) <= px
  {
    ya, yb, xa, xb := Edge(r, |m|, rows), CellEnd(r, |m|, rows), Edge(c, w, cols), CellEnd(c, w, cols);
    CellIsCell(r, |m|, rows);
    CellIsCell(c, w, cols);
    GridAt(m, w, rows, cols, rows, r, c);
    InkCounts(m, w, ya, yb, xa, xb);
    CoverageIsHalfUp(Ink(m, w, ya, yb, xa, xb), (yb - ya) * (xb - xa));
  }

  lemma CoverageIsHalfUp(ink: nat, pixels: nat)
    ensures pixels > 0 ==> 0 - pixels < 2 * (Coverage(ink, pixels) * pixels - 255 * ink) <= pixels
  {
    if pixels > 0 {
      var a := ink * 255 + pixels / 2;
      assert a == (a / pixels) * pixels + a % pixels;
    }
  }
}
