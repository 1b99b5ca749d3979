/** The network spelled out: every activation and every output bit as sums of products of the model's
  * numbers, with the rounding and both clamps as inequalities. */
module NetworkMeaning {
  import opened Words
  import opened Layers
  import opened StrumPulse
  import opened Kernels

  /** f(0) + ... + f(n - 1). */
  function SumTo(f: int -> int, n: nat): int { if n == 0 then 0 else SumTo(f, n - 1) + f(n - 1) }

  /** Entry `i`, 0 where there is none. */
  function Entry(s: seq<int>, i: int): int { if 0 <= i < |s| then s[i] else 0 }

  /** Channel `i` at time `p` of a layer, zeros before the start. */
  function Reading(cols: seq<Column>, p: int, i: int): int { if 0 <= p < |cols| then Entry(cols[p], i) else 0 }

  // ----- requantisation -----

  /** ReLU, rounding to the nearest with halves upwards, clamp at 127: `q` is what becomes of `acc`. */
  predicate Requantised(q: int, acc: int, mult: int, half: nat)
  {
    if acc <= 0 then q == 0
    else if acc * mult >= 253 * half then q == 127
    else 0 <= q < 127 && (2 * q - 1) * half <= acc * mult < (2 * q + 1) * half
  }

  /** The three cases of requantisation, each value characterised by an interval. */
  lemma RequantMeans(acc: int, mult: int, shift: nat, y: int)
    requires mult >= 0 && shift >= 1
    ensures acc <= 0 ==> Requant(acc, mult, shift) == 0
    ensures acc > 0 && 0 <= y < 127 ==>
              (Requant(acc, mult, shift) == y <==>
               (2 * y - 1) * Pow2(shift - 1) <= acc * mult < (2 * y + 1) * Pow2(shift - 1))
    ensures acc > 0 ==> (Requant(acc, mult, shift) == 127 <==> acc * mult >= 253 * Pow2(shift - 1))
  {
    if acc <= 0 {
      RoundsHalfUp(0, shift, 0);
    } else {
      RoundsHalfUp(acc * mult, shift, y);
      RoundedAtLeast(acc * mult, shift, 127);
    }
  }

  /** Rounding reaches `y` exactly from half a step below it on. */
  lemma RoundedAtLeast(x: int, shift: nat, y: int)
    requires shift >= 1
    ensures RoundHalfUpShift(x, shift) >= y <==> x >= (2 * y - 1) * Pow2(shift - 1)
  {
    var h, q := Pow2(shift - 1), RoundHalfUpShift(x, shift);
    RoundsHalfUp(x, shift, q);
    if q >= y {
      MulMonotone(h, 2 * y - 1, 2 * q - 1);
    } else {
      MulMonotone(h, 2 * q + 1, 2 * y - 1);
    }
  }

  lemma RequantIsRequantised(acc: int, mult: int, shift: nat)
    requires mult >= 0 && shift >= 1
    ensures Requantised(Requant(acc, mult, shift), acc, mult, Pow2(shift - 1))
  {
    RequantMeans(acc, mult, shift, Requant(acc, mult, shift));
    RequantRange(acc, mult, shift);
  }

  /** The input affine of one channel: rounded to the nearest, clamped at both ends. */
  lemma QuantMeans(m: Model, x: Scan, c: nat, y: int)
    requires ModelOk(m) && ScanOk(x) && c < N_IN
    ensures var v, half, q := x[c] * m.mIn[c] - m.bIn[c], Pow2(m.sInShift - 1), QuantChannel(m, x, c);
      && (-127 < y < 127 ==> (q == y <==> (2 * y - 1) * half <= v < (2 * y + 1) * half))
      && (q == 127 <==> v >= 253 * half)
      && (q == -127 <==> v < -253 * half)
  {
    var v := x[c] * m.mIn[c] - m.bIn[c];
    RoundsHalfUp(v, m.sInShift, y);
    RoundedAtLeast(v, m.sInShift, 127);
    RoundedAtLeast(v, m.sInShift, -126);
  }

  // ----- sums -----

  lemma {:induction false} SameSum(f: int -> int, g: int -> int, n: nat)
    requires forall i | 0 <= i < n :: f(i) == g(i)
    ensures SumTo(f, n) == SumTo(g, n)
  {
    if n > 0 { SameSum(f, g, n - 1); }
  }

  /** The product of weight [o][i][k] and its tap at time `p`. */
  function Term(L: Layer, cols: seq<Column>, p: int, o: int, i: int, k: int): int
  {
    Entry(L.w, (o * L.cin + i) * 5 + k) * Reading(cols, p - (4 - k) * L.dil, i)
  }

  function OverTaps(L: Layer, cols: seq<Column>, p: int, o: int, i: int): int
  {
    SumTo(k => Term(L, cols, p, o, i, k), 5)
  }

  function PerChannel(L: Layer, cols: seq<Column>, p: int, o: int): int -> int { i => OverTaps(L, cols, p, o, i) }

  /** Bias plus the sum over input channels and taps, the oldest tap first and `dil` steps apart. */
  function Preactivation(L: Layer, cols: seq<Column>, p: int, o: int): int
  {
    Entry(L.b, o) + SumTo(PerChannel(L, cols, p, o), L.cin)
  }

  /** `q` is the requantised preactivation. */
  predicate Computes(L: Layer, cols: seq<Column>, p: int, o: int, q: int)
    requires L.shift >= 1
  {
    Requantised(q, Preactivation(L, cols, p, o), L.mult, Pow2(L.shift - 1))
  }

  lemma {:induction false} TapSumMeans(L: Layer, cols: seq<Column>, p: int, o: nat, i: nat, k: nat)
    requires k <= KERNEL
    ensures TapSum(L.w, (o * L.cin + i) * KERNEL, TapsAt(cols, p, L.dil), i, k)
         == SumTo(j => Term(L, cols, p, o, i, j), k)
  {
    if k > 0 {
      TapSumMeans(L, cols, p, o, i, k - 1);
      TapReads(L, cols, p, i, k - 1);
    }
  }

  lemma TapReads(L: Layer, cols: seq<Column>, p: int, i: nat, k: nat)
    requires k < KERNEL
    ensures At(ColumnAt(TapsAt(cols, p, L.dil), k), i) == Reading(cols, p - (4 - k) * L.dil, i)
  {
    assert TapsAt(cols, p, L.dil)[k] == ColumnAt(cols, p - TapOffset(k, L.dil));
  }

  lemma {:induction false} ChannelSumMeans(L: Layer, cols: seq<Column>, p: int, o: nat, n: nat)
    ensures ChannelSum(L, TapsAt(cols, p, L.dil), o, n) == SumTo(PerChannel(L, cols, p, o), n)
  {
    if n > 0 {
      ChannelSumMeans(L, cols, p, o, n - 1);
      ChannelSumGrows(L, cols, p, o, n - 1);
    }
  }

  lemma ChannelSumGrows(L: Layer, cols: seq<Column>, p: int, o: nat, i: nat)
    ensures ChannelSum(L, TapsAt(cols, p, L.dil), o, i + 1)
         == ChannelSum(L, TapsAt(cols, p, L.dil), o, i) + OverTaps(L, cols, p, o, i)
  {
    TapSumMeans(L, cols, p, o, i, KERNEL);
  }

  // ----- layers and outputs -----

  /** Every activation above the input is the requantised preactivation over the layer below. */
  lemma ActMeans(m: Model, l: nat, xs: seq<Scan>, p: nat, o: nat)
    requires |m.layers| == 3 && 1 <= l <= 3 && LayerOk(m.layers[l - 1], m.channels) && p < |xs| && o < m.channels
    ensures var L := m.layers[l - 1];
            |Act(m, l, xs)[p]| == m.channels && Computes(L, Act(m, l - 1, xs), p, o, Act(m, l, xs)[p][o])
  {
    var L, below := m.layers[l - 1], Act(m, l - 1, xs);
    ActIsNeuron(m, l, xs, p, o);
    NeuronMeans(L, m.channels, below, p, o);
  }

  lemma NeuronMeans(L: Layer, channels: nat, cols: seq<Column>, p: int, o: nat)
    requires LayerOk(L, channels)
    ensures Computes(L, cols, p, o, Neuron(L, TapsAt(cols, p, L.dil), o))
  {
    ChannelSumMeans(L, cols, p, o, L.cin);
    RequantIsRequantised(Accumulate(L, TapsAt(cols, p, L.dil), o), L.mult, L.shift);
  }

  lemma ActIsNeuron(m: Model, l: nat, xs: seq<Scan>, p: nat, o: nat)
    requires |m.layers| == 3 && 1 <= l <= 3 && p < |xs| && o < m.channels
    ensures var L := m.layers[l - 1];
            |Act(m, l, xs)[p]| == m.channels && Act(m, l, xs)[p][o] == Neuron(L, TapsAt(Act(m, l - 1, xs), p, L.dil), o)
  {
  }

  /** And every input activation the quantised reading, one per channel of the scan. */
  lemma InputMeans(m: Model, xs: seq<Scan>, p: nat)
    requires ModelOk(m) && p < |xs|
    ensures Act(m, 0, xs)[p] == [QuantChannel(m, xs[p], 0), QuantChannel(m, xs[p], 1), QuantChannel(m, xs[p], 2),
                                 QuantChannel(m, xs[p], 3), QuantChannel(m, xs[p], 4)]
  {
  }

  lemma {:induction false} HeadSumMeans(m: Model, last: Column, o: nat, n: nat)
    ensures HeadSum(m, last, o, n) == SumTo(i => Entry(m.headW, o * m.channels + i) * Entry(last, i), n)
  {
    if n > 0 { HeadSumMeans(m, last, o, n - 1); }
  }

  /** Logit `o` reaches its threshold. */
  predicate Reaches(m: Model, last: Column, o: nat)
  {
    Entry(m.headB, o) + SumTo(i => Entry(m.headW, o * m.channels + i) * Entry(last, i), m.channels) >= Entry(m.headTq, o)
  }

  /** The byte an engine returns: bit `o` for the five frets whose logit reaches the threshold, bit 5 for
    * the one-shot fed the sixth. */
  lemma VerdictMeans(m: Model, last: Column, shot: OneShot)
    ensures var strum := Tick(shot, Reaches(m, last, 5), m.strumHold, m.strumRefractory);
      Verdict(m, last, shot) == (strum.0,
        (if Reaches(m, last, 0) then 1 else 0) + (if Reaches(m, last, 1) then 2 else 0) +
        (if Reaches(m, last, 2) then 4 else 0) + (if Reaches(m, last, 3) then 8 else 0) +
        (if Reaches(m, last, 4) then 16 else 0) + (if strum.1 then 32 else 0))
  {
    forall o: nat | o <= 5
      ensures OutputBit(m, last, o) == Reaches(m, last, o)
    {
      HeadSumMeans(m, last, o, m.channels);
    }
    MaskBits(m, last);
  }

  lemma MaskBits(m: Model, last: Column)
    ensures FretMask(m, last, 5) ==
        (if OutputBit(m, last, 0) then 1 else 0) + (if OutputBit(m, last, 1) then 2 else 0) +
        (if OutputBit(m, last, 2) then 4 else 0) + (if OutputBit(m, last, 3) then 8 else 0) +
        (if OutputBit(m, last, 4) then 16 else 0)
  {
    MaskGrows(m, last, 0);
    MaskGrows(m, last, 1);
    MaskGrows(m, last, 2);
    MaskGrows(m, last, 3);
    MaskGrows(m, last, 4);
    assert Pow2(0) == 1 && Pow2(1) == 2 && Pow2(2) == 4 && Pow2(3) == 8 && Pow2(4) == 16;
  }

  lemma MaskGrows(m: Model, last: Column, n: nat)
    ensures FretMask(m, last, n + 1) == FretMask(m, last, n) + (if OutputBit(m, last, n) then Pow2(n) else 0)
  {
  }
}
