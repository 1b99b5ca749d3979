/** The int8 network as mathematics: what all three implementations compute.
  * A missing column reads as zeros, which is the causal left zero-padding. */
module Layers {
  import opened Words

  const KERNEL := 5
  const N_LAYERS := 3
  const N_IN := 5
  const N_OUT := 6
  const WINDOW := 85
  const QMAX := 127

  /** The activations of one time step, one int8 per channel. */
  type Column = seq<int>

  /** One 240 Hz scan: five raw ADC readings. */
  type Scan = seq<int>

  /** One dilated causal convolution with its requantisation. `w` is flat, [out][in][tap]. */
  datatype Layer = Layer(w: seq<int>, b: seq<int>, cin: nat, dil: nat, mult: int, shift: nat)

  /** `model_def_t`. */
  datatype Model = Model(
    channels: nat,
    mIn: seq<int>, bIn: seq<int>, sInShift: nat,
    layers: seq<Layer>,
    headW: seq<int>, headB: seq<int>, headTq: seq<int>,
    strumHold: nat, strumRefractory: nat)

  // ----- the ranges the generated header keeps to -----

  predicate IsInt8(x: int) { -128 <= x <= 127 }

  predicate ScanOk(x: Scan)
  {
    |x| == N_IN && forall c | 0 <= c < |x| :: 0 <= x[c] < 0x10000
  }

  /** An activation column: symmetric int8. */
  predicate ColumnOk(x: Column, channels: nat)
  {
    |x| == channels && forall c | 0 <= c < |x| :: -QMAX <= x[c] <= QMAX
  }

  /** Largest magnitude of one weight-activation product. */
  const PRODUCT_MAX := 128 * QMAX

  predicate LayerOk(L: Layer, channels: nat)
  {
    && |L.w| == channels * L.cin * KERNEL
    && (forall j | 0 <= j < |L.w| :: IsInt8(L.w[j]))
    && |L.b| == channels
    && (forall o | 0 <= o < channels ::
          -INT32_MAX + L.cin * KERNEL * PRODUCT_MAX <= L.b[o] <= INT32_MAX - L.cin * KERNEL * PRODUCT_MAX)
    && 0 <= L.mult <= INT32_MAX
    && 1 <= L.shift <= 31
  }

  predicate ModelOk(m: Model)
  {
    && |m.mIn| == N_IN && |m.bIn| == N_IN
    && (forall c | 0 <= c < N_IN :: IsInt32(m.mIn[c]) && IsInt32(m.bIn[c]))
    && 1 <= m.sInShift <= 31
    && |m.layers| == N_LAYERS
    && (forall l | 0 <= l < N_LAYERS :: LayerOk(m.layers[l], m.channels))
    && m.layers[0].cin == N_IN && m.layers[1].cin == m.channels && m.layers[2].cin == m.channels
    && |m.headW| == N_OUT * m.channels && |m.headB| == N_OUT && |m.headTq| == N_OUT
    && (forall j | 0 <= j < |m.headW| :: IsInt8(m.headW[j]))
    && (forall o | 0 <= o < N_OUT ::
          -INT32_MAX + m.channels * PRODUCT_MAX <= m.headB[o] <= INT32_MAX - m.channels * PRODUCT_MAX)
    && m.strumHold < 256 && m.strumRefractory < 256
  }

  /** Input columns have five channels, every later layer has `channels`. */
  function Width(m: Model, l: nat): nat { if l == 0 then N_IN else m.channels }

  /** 1 + (K-1) * (sum of dilations). */
  function ReceptiveField(m: Model): nat
    requires |m.layers| == N_LAYERS
  {
    1 + (KERNEL - 1) * (m.layers[0].dil + m.layers[1].dil + m.layers[2].dil)
  }

  // ----- arithmetic -----

  function At(s: seq<int>, i: int): int { if 0 <= i < |s| then s[i] else 0 }

  function ColumnAt(cols: seq<Column>, p: int): Column { if 0 <= p < |cols| then cols[p] else [] }

  /** (x + 2^(shift-1)) >> shift with an arithmetic (floor) shift. */
  function RoundHalfUpShift(x: int, shift: nat): int
    requires shift >= 1
  {
    (x + Pow2(shift - 1)) / Pow2(shift)
  }

  function Clamp(v: int, lo: int, hi: int): int { if v > hi then hi else if v < lo then lo else v }

  function Max0(x: int): int { if x < 0 then 0 else x }

  /** ReLU and requantisation. */
  function Requant(acc: int, mult: int, shift: nat): int
  {
    if shift < 1 then 0 else
    var q := RoundHalfUpShift(Max0(acc) * mult, shift);
    if q > QMAX then QMAX else q
  }

  /** Input affine to symmetric int8. */
  function QuantChannel(m: Model, x: Scan, c: nat): int
  {
    if m.sInShift < 1 then 0 else
    Clamp(RoundHalfUpShift(At(x, c) * At(m.mIn, c) - At(m.bIn, c), m.sInShift), -QMAX, QMAX)
  }

  function QuantColumn(m: Model, x: Scan): Column
  {
    seq(N_IN, c requires 0 <= c < N_IN => QuantChannel(m, x, c))
  }

  /** Dot product of the first `k` taps of one weight row with input channel `i`. */
  function TapSum(w: seq<int>, base: int, taps: seq<Column>, i: nat, k: nat): int
  {
    if k == 0 then 0
    else TapSum(w, base, taps, i, k - 1) + At(w, base + k - 1) * At(ColumnAt(taps, k - 1), i)
  }

  /** The same summed over the first `i` input channels of output channel `o`. */
  function ChannelSum(L: Layer, taps: seq<Column>, o: nat, i: nat): int
  {
    if i == 0 then 0
    else ChannelSum(L, taps, o, i - 1) + TapSum(L.w, (o * L.cin + i - 1) * KERNEL, taps, i - 1, KERNEL)
  }

  function Accumulate(L: Layer, taps: seq<Column>, o: nat): int
  {
    At(L.b, o) + ChannelSum(L, taps, o, L.cin)
  }

  function Neuron(L: Layer, taps: seq<Column>, o: nat): int
  {
    Requant(Accumulate(L, taps, o), L.mult, L.shift)
  }

  /** One output column from the KERNEL columns under the taps. */
  function ConvColumn(L: Layer, channels: nat, taps: seq<Column>): Column
  {
    seq(channels, o requires 0 <= o < channels => Neuron(L, taps, o))
  }

  /** How far back tap `k` reads. */
  function TapOffset(k: nat, dil: nat): nat
    requires k < KERNEL
  {
    (KERNEL - 1 - k) * dil
  }

  /** The columns under the taps at position `p`, nothing before the start. */
  function TapsAt(cols: seq<Column>, p: int, dil: nat): seq<Column>
  {
    seq(KERNEL, k requires 0 <= k < KERNEL => ColumnAt(cols, p - TapOffset(k, dil)))
  }

  /** The dense causal convolution of a whole sequence of columns. */
  function ConvDense(L: Layer, channels: nat, cols: seq<Column>): seq<Column>
  {
    seq(|cols|, p requires 0 <= p < |cols| => ConvColumn(L, channels, TapsAt(cols, p, L.dil)))
  }

  /** Layer `l`'s columns for a sequence of scans; layer 0 is the quantised input. */
  function Act(m: Model, l: nat, xs: seq<Scan>): (r: seq<Column>)
    requires |m.layers| == N_LAYERS && l <= N_LAYERS
    ensures |r| == |xs|
  {
    if l == 0 then seq(|xs|, p requires 0 <= p < |xs| => QuantColumn(m, xs[p]))
    else ConvDense(m.layers[l - 1], m.channels, Act(m, l - 1, xs))
  }

  function HeadSum(m: Model, last: Column, o: nat, i: nat): int
  {
    if i == 0 then 0
    else HeadSum(m, last, o, i - 1) + At(m.headW, o * m.channels + i - 1) * At(last, i - 1)
  }

  /** Output `o` is set when its logit reaches the threshold. */
  predicate OutputBit(m: Model, last: Column, o: nat)
  {
    At(m.headB, o) + HeadSum(m, last, o, m.channels) >= At(m.headTq, o)
  }

  /** The five fret bits as a mask. */
  function FretMask(m: Model, last: Column, n: nat): nat
  {
    if n == 0 then 0
    else FretMask(m, last, n - 1) + (if OutputBit(m, last, n - 1) then Pow2(n - 1) else 0)
  }

  const STRUM_OUT: nat := 5
  const STRUM_BIT: nat := 32

  /** The network's verdict on the last time step of a sequence of scans. */
  function Last(m: Model, xs: seq<Scan>): Column
    requires |m.layers| == N_LAYERS
  {
    ColumnAt(Act(m, |m.layers|, xs), |xs| - 1)
  }

  // ----- ranges -----

  lemma Pow2Sum(shift: nat)
    requires shift >= 1
    ensures Pow2(shift) == 2 * Pow2(shift - 1)
  {
  }

  lemma QuotientIs(a: int, d: int, y: int)
    requires d > 0
    ensures a / d == y <==> y * d <= a < (y + 1) * d
  {
    assert (y + 1) * d == y * d + d;
    if y * d <= a < y * d + d {
      DivUnique(a, d, y, a - y * d);
    }
    assert a == (a / d) * d + a % d;
  }

  /** The shift is division to the nearest integer, halves upwards, for negative values too: `y` is
    * the result exactly when `x` lies in the half-open interval of width one around `y * 2^shift`. */
  lemma RoundsHalfUp(x: int, shift: nat, y: int)
    requires shift >= 1
    ensures RoundHalfUpShift(x, shift) == y <==> (2 * y - 1) * Pow2(shift - 1) <= x < (2 * y + 1) * Pow2(shift - 1)
  {
    var h := Pow2(shift - 1);
    Pow2Sum(shift);
    QuotientIs(x + h, 2 * h, y);
    assert y * (2 * h) == (2 * y - 1) * h + h;
    assert (y + 1) * (2 * h) == (2 * y + 1) * h + h;
  }

  /** Requantised activations are never negative and fit 7 bits. */
  lemma RequantRange(acc: int, mult: int, shift: nat)
    requires mult >= 0 && shift >= 1
    ensures 0 <= Requant(acc, mult, shift) <= QMAX
  {
    assert Max0(acc) * mult >= 0 by { MulNonNeg(Max0(acc), mult); }
    DivNonNeg(Max0(acc) * mult + Pow2(shift - 1), Pow2(shift));
  }

  lemma MulNonNeg(a: int, b: int)
    requires a >= 0 && b >= 0
    ensures a * b >= 0
  {
  }

  lemma DivNonNeg(a: int, b: int)
    requires a >= 0 && b > 0
    ensures a / b >= 0
  {
  }

  lemma ColumnRange(L: Layer, channels: nat, taps: seq<Column>)
    requires LayerOk(L, channels)
    ensures ColumnOk(ConvColumn(L, channels, taps), channels)
    ensures forall o | 0 <= o < channels :: ConvColumn(L, channels, taps)[o] >= 0
  {
    forall o | 0 <= o < channels
      ensures 0 <= Neuron(L, taps, o) <= QMAX
    {
      RequantRange(Accumulate(L, taps, o), L.mult, L.shift);
    }
  }

  /** Every activation of every layer is symmetric int8, whatever the scans. */
  lemma {:induction false} ActRange(m: Model, l: nat, xs: seq<Scan>)
    requires ModelOk(m) && l <= N_LAYERS
    ensures forall p | 0 <= p < |xs| :: ColumnOk(Act(m, l, xs)[p], Width(m, l))
    ensures l > 0 ==> forall p, c | 0 <= p < |xs| && 0 <= c < m.channels :: 0 <= Act(m, l, xs)[p][c] <= QMAX
  {
    if l > 0 {
      forall p | 0 <= p < |xs|
        ensures ColumnOk(Act(m, l, xs)[p], m.channels)
        ensures forall c | 0 <= c < m.channels :: 0 <= Act(m, l, xs)[p][c]
      {
        ColumnRange(m.layers[l - 1], m.channels, TapsAt(Act(m, l - 1, xs), p, m.layers[l - 1].dil));
      }
    }
  }

  lemma LastRange(m: Model, xs: seq<Scan>)
    requires ModelOk(m) && |xs| > 0
    ensures ColumnOk(Last(m, xs), m.channels)
  {
    ActRange(m, |m.layers|, xs);
  }

  /** The flat weight index of (o, i, k) stays inside the array. */
  lemma WeightIndex(o: nat, i: nat, k: nat, channels: nat, cin: nat)
    requires o < channels && i < cin && k < KERNEL
    ensures 0 <= (o * cin + i) * KERNEL + k < channels * cin * KERNEL
  {
    assert o * cin + cin <= channels * cin by {
      assert (channels - o) * cin >= cin by { MulAtLeast(channels - o, cin); }
    }
  }

  lemma HeadIndex(o: nat, i: nat, channels: nat)
    requires o < N_OUT && i < channels
    ensures 0 <= o * channels + i < N_OUT * channels
  {
    assert (N_OUT - o) * channels >= channels by { MulAtLeast(N_OUT - o, channels); }
  }

  lemma MulMonotone(a: int, x: int, y: int)
    requires a >= 0 && x <= y
    ensures a * x <= a * y
  {
    assert a * (y - x) >= 0;
    assert a * y == a * x + a * (y - x);
  }

  /** A product of an int8 weight and a symmetric int8 activation. */
  lemma ProductRange(w: int, x: int)
    requires IsInt8(w) && -QMAX <= x <= QMAX
    ensures -PRODUCT_MAX <= w * x <= PRODUCT_MAX
  {
    if w >= 0 {
      MulMonotone(w, x, 127);
      MulMonotone(w, -127, x);
    } else {
      MulMonotone(-w, x, 127);
      MulMonotone(-w, -127, x);
      assert -w * x == -(w * x);
    }
  }

  // ----- causality and locality -----

  /** Later scans cannot change an earlier column. */
  lemma {:induction false} Causal(m: Model, l: nat, xs: seq<Scan>, n: nat)
    requires |m.layers| == N_LAYERS && l <= N_LAYERS && n <= |xs|
    ensures Act(m, l, xs[..n]) == Act(m, l, xs)[..n]
  {
    if l > 0 {
      Causal(m, l - 1, xs, n);
      var d := m.layers[l - 1].dil;
      forall p | 0 <= p < n
        ensures Act(m, l, xs[..n])[p] == Act(m, l, xs)[p]
      {
        assert TapsAt(Act(m, l - 1, xs[..n]), p, d) == TapsAt(Act(m, l - 1, xs), p, d);
      }
    }
  }

  /** How many columns back layer `l` looks. */
  function Reach(m: Model, l: nat): nat
    requires |m.layers| == N_LAYERS && l <= N_LAYERS
  {
    if l == 0 then 0 else Reach(m, l - 1) + (KERNEL - 1) * m.layers[l - 1].dil
  }

  lemma SameTaps(cols: seq<Column>, p: int, others: seq<Column>, r: int, d: nat)
    requires forall k | 0 <= k < KERNEL :: ColumnAt(cols, p - TapOffset(k, d)) == ColumnAt(others, r - TapOffset(k, d))
    ensures TapsAt(cols, p, d) == TapsAt(others, r, d)
  {
  }

  lemma TapWithinReach(k: nat, d: nat)
    requires k < KERNEL
    ensures 0 <= TapOffset(k, d) <= (KERNEL - 1) * d
  {
  }

  /** A column depends on nothing further back than its reach: dropping older scans
    * leaves it unchanged, so no zero-padding is involved. */
  lemma {:induction false} Local(m: Model, l: nat, xs: seq<Scan>, t: nat, p: nat)
    requires |m.layers| == N_LAYERS && l <= N_LAYERS
    requires t + Reach(m, l) <= p < |xs|
    ensures Act(m, l, xs)[p] == Act(m, l, xs[t..])[p - t]
  {
    if l > 0 {
      var d := m.layers[l - 1].dil;
      var below, inTail := Act(m, l - 1, xs), Act(m, l - 1, xs[t..]);
      forall k | 0 <= k < KERNEL
        ensures ColumnAt(below, p - TapOffset(k, d)) == ColumnAt(inTail, p - t - TapOffset(k, d))
      {
        TapWithinReach(k, d);
        Local(m, l - 1, xs, t, p - TapOffset(k, d));
      }
      SameTaps(below, p, inTail, p - t, d);
    }
  }

  lemma ReachIsReceptiveField(m: Model)
    requires |m.layers| == N_LAYERS
    ensures Reach(m, N_LAYERS) + 1 == ReceptiveField(m)
  {
    assert Reach(m, 3) == Reach(m, 2) + (KERNEL - 1) * m.layers[2].dil;
    assert Reach(m, 2) == Reach(m, 1) + (KERNEL - 1) * m.layers[1].dil;
    assert Reach(m, 1) == Reach(m, 0) + (KERNEL - 1) * m.layers[0].dil;
  }

  /** `window` is the last |window| scans of `xs`. */
  ghost predicate IsTail(window: seq<Scan>, xs: seq<Scan>)
  {
    |window| <= |xs| && forall j | 0 <= j < |window| :: window[j] == xs[|xs| - |window| + j]
  }

  lemma LocalWindow(m: Model, l: nat, xs: seq<Scan>, window: seq<Scan>)
    requires |m.layers| == N_LAYERS && l <= N_LAYERS && Reach(m, l) < |window| && IsTail(window, xs)
    ensures ColumnAt(Act(m, l, xs), |xs| - 1) == ColumnAt(Act(m, l, window), |window| - 1)
  {
    var t, p := |xs| - |window|, |xs| - 1;
    assert xs[t..] == window;
    Local(m, l, xs, t, p);
    assert Act(m, l, xs)[p] == Act(m, l, window)[|window| - 1];
  }

  /** The verdict on a stream is the verdict on any tail of it that covers the receptive
    * field, so no zero-padding is involved in it. */
  lemma LastIsWindow(m: Model, xs: seq<Scan>, window: seq<Scan>)
    requires |m.layers| == N_LAYERS && ReceptiveField(m) <= |window| && IsTail(window, xs)
    ensures Last(m, xs) == Last(m, window)
  {
    ReachIsReceptiveField(m);
    LocalWindow(m, |m.layers|, xs, window);
  }
}
