/** The integer kernels both engines share the arithmetic of: 32-bit accumulation,
  * 64-bit requantisation, the input affine and the output head. */
module Kernels {
  import opened Words
  import opened Layers
  import opened StrumPulse

  /** Columns that may stand under the taps: real ones, or [] before the stream starts. */
  predicate TapsOk(taps: seq<Column>, cin: nat)
  {
    |taps| == KERNEL && forall k | 0 <= k < KERNEL :: taps[k] == [] || ColumnOk(taps[k], cin)
  }

  lemma {:induction false} TapSumBound(L: Layer, channels: nat, taps: seq<Column>, o: nat, i: nat, k: nat)
    requires LayerOk(L, channels) && TapsOk(taps, L.cin) && o < channels && i < L.cin && k <= KERNEL
    ensures k * -PRODUCT_MAX <= TapSum(L.w, (o * L.cin + i) * KERNEL, taps, i, k) <= k * PRODUCT_MAX
  {
    if k > 0 {
      TapSumBound(L, channels, taps, o, i, k - 1);
      WeightIndex(o, i, k - 1, channels, L.cin);
      ProductRange(L.w[(o * L.cin + i) * KERNEL + (k - 1)], At(taps[k - 1], i));
    }
  }

  lemma {:induction false} ChannelSumBound(L: Layer, channels: nat, taps: seq<Column>, o: nat, i: nat)
    requires LayerOk(L, channels) && TapsOk(taps, L.cin) && o < channels && i <= L.cin
    ensures i * KERNEL * -PRODUCT_MAX <= ChannelSum(L, taps, o, i) <= i * KERNEL * PRODUCT_MAX
  {
    if i > 0 {
      ChannelSumBound(L, channels, taps, o, i - 1);
      TapSumBound(L, channels, taps, o, i - 1, KERNEL);
    }
  }

  /** Taps of earlier channels and of this one stay within the taps of all channels. */
  lemma TermsFit(cin: int, i: int, k: int, kernel: int, product: int)
    requires 0 <= i < cin && 0 <= k <= kernel && product >= 0
    ensures i * kernel * product + k * product <= cin * kernel * product
  {
    MulMonotone(product, k, kernel);
    MulMonotone(kernel * product, i + 1, cin);
  }

  /** A bias with `room` to both ends of int32 takes any sum within it. */
  lemma SumFits(bias: int, early: int, late: int, earlyMax: int, lateMax: int, room: int)
    requires -INT32_MAX + room <= bias <= INT32_MAX - room && earlyMax + lateMax <= room
    requires -earlyMax <= early <= earlyMax && -lateMax <= late <= lateMax
    ensures IsInt32(bias + early + late)
  {
  }

  /** No partial sum of a neuron leaves the int32 range. */
  lemma NoAccumulatorOverflow(L: Layer, channels: nat, taps: seq<Column>, o: nat, i: nat, k: nat)
    requires LayerOk(L, channels) && TapsOk(taps, L.cin) && o < channels
    requires i < L.cin && k <= KERNEL
    ensures IsInt32(L.b[o] + ChannelSum(L, taps, o, i) + TapSum(L.w, (o * L.cin + i) * KERNEL, taps, i, k))
  {
    ChannelSumBound(L, channels, taps, o, i);
    TapSumBound(L, channels, taps, o, i, k);
    TermsFit(L.cin, i, k, KERNEL, PRODUCT_MAX);
    SumFits(L.b[o], ChannelSum(L, taps, o, i), TapSum(L.w, (o * L.cin + i) * KERNEL, taps, i, k),
            i * KERNEL * PRODUCT_MAX, k * PRODUCT_MAX, L.cin * KERNEL * PRODUCT_MAX);
  }

  lemma AccumulatorRange(L: Layer, channels: nat, taps: seq<Column>, o: nat)
    requires LayerOk(L, channels) && TapsOk(taps, L.cin) && o < channels
    ensures IsInt32(Accumulate(L, taps, o))
  {
    ChannelSumBound(L, channels, taps, o, L.cin);
  }

  lemma Pow2AtMost(n: nat, m: nat)
    requires n <= m
    ensures Pow2(n) <= Pow2(m)
    decreases m - n
  {
    if n < m { Pow2AtMost(n + 1, m); }
  }

  lemma ProductAtMost(a: int, b: int, most: int)
    requires 0 <= a <= most && 0 <= b <= most
    ensures 0 <= a * b <= most * most
  {
    assert a * b <= a * most <= most * most;
  }

  lemma RoundingTerm(shift: nat)
    requires 1 <= shift <= 31
    ensures 0 <= Pow2(shift - 1) <= 0x4000_0000
  {
    Pow2AtMost(shift - 1, 30);
    assert Pow2(10) == 1024 && Pow2(20) == 1024 * 1024 && Pow2(30) == 1024 * 1024 * 1024;
  }

  /** The 64-bit product of the requantisation cannot overflow. */
  lemma RequantFits64(acc: int, mult: int, shift: nat)
    requires IsInt32(acc) && acc >= 0 && 0 <= mult <= INT32_MAX && 1 <= shift <= 31
    ensures IsInt64(acc * mult) && IsInt64(acc * mult + Pow2(shift - 1))
  {
    ProductAtMost(acc, mult, INT32_MAX);
    RoundingTerm(shift);
  }

  /** ReLU, rounding shift and clamp of one accumulator. */
  method RequantAcc(acc: int, mult: int, shift: nat) returns (q: int)
    requires IsInt32(acc) && 0 <= mult <= INT32_MAX && 1 <= shift <= 31
    ensures q == Requant(acc, mult, shift) && 0 <= q <= QMAX
  {
    var a := acc;
    if a < 0 { a := 0; }
    RequantFits64(a, mult, shift);
    q := (a * mult + Pow2(shift - 1)) / Pow2(shift);
    if q > QMAX { q := QMAX; }
    RequantRange(acc, mult, shift);
  }

  /** The input affine of one scan. */
  method QuantScan(m: Model, adc: Scan) returns (col: Column)
    requires ModelOk(m) && ScanOk(adc)
    ensures col == QuantColumn(m, adc) && ColumnOk(col, N_IN)
  {
    col := [];
    for c := 0 to N_IN
      invariant |col| == c
      invariant forall j | 0 <= j < c :: col[j] == QuantChannel(m, adc, j) && -QMAX <= col[j] <= QMAX
    {
      var v := adc[c] * m.mIn[c] - m.bIn[c];
      var q := (v + Pow2(m.sInShift - 1)) / Pow2(m.sInShift);
      if q > QMAX { q := QMAX; } else if q < -QMAX { q := -QMAX; }
      col := col + [q];
    }
  }

  lemma {:induction false} HeadSumBound(m: Model, last: Column, o: nat, i: nat)
    requires ModelOk(m) && ColumnOk(last, m.channels) && o < N_OUT && i <= m.channels
    ensures i * -PRODUCT_MAX <= HeadSum(m, last, o, i) <= i * PRODUCT_MAX
  {
    if i > 0 {
      HeadSumBound(m, last, o, i - 1);
      HeadIndex(o, i - 1, m.channels);
      ProductRange(m.headW[o * m.channels + (i - 1)], last[i - 1]);
    }
  }

  /** What an engine makes of the last layer's newest column: the byte, and the one-shot afterwards. */
  function Verdict(m: Model, last: Column, shot: OneShot): (OneShot, nat)
  {
    var (shot', strum) := Tick(shot, OutputBit(m, last, STRUM_OUT), m.strumHold, m.strumRefractory);
    (shot', FretMask(m, last, STRUM_OUT) + if strum then STRUM_BIT else 0)
  }

  /** The output head: five fret bits as a mask, and the raw strum bit. */
  method Head(m: Model, last: Column) returns (mask: nat, rawStrum: bool)
    requires ModelOk(m) && ColumnOk(last, m.channels)
    ensures mask == FretMask(m, last, STRUM_OUT) && rawStrum == OutputBit(m, last, STRUM_OUT)
  {
    mask := 0;
    rawStrum := false;
    for o := 0 to N_OUT
      invariant mask == FretMask(m, last, if o < STRUM_OUT then o else STRUM_OUT)
      invariant o == N_OUT ==> rawStrum == OutputBit(m, last, STRUM_OUT)
    {
      var acc := m.headB[o];
      for i := 0 to m.channels
        invariant acc == m.headB[o] + HeadSum(m, last, o, i)
        invariant IsInt32(acc)
      {
        HeadIndex(o, i, m.channels);
        HeadSumBound(m, last, o, i + 1);
        acc := acc + m.headW[o * m.channels + i] * last[i];
      }
      var bit := acc >= m.headTq[o];
      if o < STRUM_OUT {
        if bit { mask := mask + Pow2(o); }   // each bit is set once, so `|=` is `+`
      } else {
        rawStrum := bit;
      }
    }
  }
}
