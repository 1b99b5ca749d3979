/** The host's integer reference (quantize.py): dense convolution summed tap by tap over
  * a zero-padded copy, nested weight lists, and the flattening that emits them to C. */
module HostReference {
  import opened Words
  import opened Layers

  /** The integer part of `QuantParams`. Weights are nested [out][in][tap]. */
  datatype QuantParams = QuantParams(
    channels: nat, dilations: seq<nat>,
    mIn: seq<int>, bIn: seq<int>, sInShift: nat,
    convW: seq<seq<seq<seq<int>>>>, convB: seq<seq<int>>, convMult: seq<int>, convShift: seq<nat>,
    headW: seq<seq<int>>, headB: seq<int>, headTq: seq<int>,
    strumHold: nat, strumRefractory: nat)

  predicate Shape3(w: seq<seq<seq<int>>>, cout: nat, cin: nat)
  {
    |w| == cout && forall o | 0 <= o < cout :: Shape2(w[o], cin, KERNEL)
  }

  predicate Shape2(w: seq<seq<int>>, rows: nat, width: nat)
  {
    |w| == rows && forall i | 0 <= i < rows :: |w[i]| == width
  }

  predicate ParamsOk(qp: QuantParams)
  {
    && |qp.dilations| == |qp.convW| == |qp.convB| == |qp.convMult| == |qp.convShift| == N_LAYERS
    && (forall l | 0 <= l < N_LAYERS :: Shape3(qp.convW[l], qp.channels, if l == 0 then N_IN else qp.channels))
    && (forall l | 0 <= l < N_LAYERS :: qp.convShift[l] >= 1)
    && Shape2(qp.headW, N_OUT, qp.channels)
    && |qp.mIn| == |qp.bIn| == N_IN && |qp.headB| == |qp.headTq| == N_OUT && qp.sInShift >= 1
    && (forall l | 0 <= l < N_LAYERS :: |qp.convB[l]| == qp.channels)
  }

  // ----- emit_c_header: nested lists to flat arrays -----

  function Flatten(rows: seq<seq<int>>): seq<int>
  {
    if rows == [] then [] else Flatten(rows[..|rows| - 1]) + rows[|rows| - 1]
  }

  function Flatten3(w: seq<seq<seq<int>>>): seq<int>
  {
    Flatten(seq(|w|, o requires 0 <= o < |w| => Flatten(w[o])))
  }

  function EmitLayer(qp: QuantParams, l: nat): Layer
    requires ParamsOk(qp) && l < N_LAYERS
  {
    Layer(Flatten3(qp.convW[l]), qp.convB[l], if l == 0 then N_IN else qp.channels,
          qp.dilations[l], qp.convMult[l], qp.convShift[l])
  }

  /** `emit_c_header`: the model the firmware is built with. */
  function Emit(qp: QuantParams): Model
    requires ParamsOk(qp)
  {
    Model(qp.channels, qp.mIn, qp.bIn, qp.sInShift,
          [EmitLayer(qp, 0), EmitLayer(qp, 1), EmitLayer(qp, 2)],
          Flatten(qp.headW), qp.headB, qp.headTq, qp.strumHold, qp.strumRefractory)
  }

  lemma {:induction false} FlattenAt(rows: seq<seq<int>>, width: nat, i: nat, k: nat)
    requires Shape2(rows, |rows|, width) && i < |rows| && k < width
    ensures |Flatten(rows)| == |rows| * width
    ensures 0 <= i * width + k < |rows| * width
    ensures Flatten(rows)[i * width + k] == rows[i][k]
  {
    var n := |rows| - 1;
    var front := rows[..n];
    FlattenLength(front, width);
    FlattenLength(rows, width);
    if i < n {
      FlattenAt(front, width, i, k);
    } else {
      assert |rows| * width == n * width + width;
    }
  }

  lemma {:induction false} FlattenLength(rows: seq<seq<int>>, width: nat)
    requires Shape2(rows, |rows|, width)
    ensures |Flatten(rows)| == |rows| * width
  {
    if rows != [] {
      FlattenLength(rows[..|rows| - 1], width);
      assert |rows| * width == (|rows| - 1) * width + width;
    }
  }

  /** Flattening keeps every weight: [o][i][k] is found at (o * cin + i) * K + k. */
  lemma Flatten3At(w: seq<seq<seq<int>>>, cout: nat, cin: nat, o: nat, i: nat, k: nat)
    requires Shape3(w, cout, cin) && o < cout && i < cin && k < KERNEL
    ensures At(Flatten3(w), (o * cin + i) * KERNEL + k) == w[o][i][k]
  {
    var rows := seq(|w|, j requires 0 <= j < |w| => Flatten(w[j]));
    forall j | 0 <= j < |rows|
      ensures |rows[j]| == cin * KERNEL
    {
      FlattenLength(w[j], KERNEL);
    }
    FlattenAt(w[o], KERNEL, i, k);
    FlatIndex(o, cin, i, KERNEL, k);
    FlattenRow(rows, cin * KERNEL, o, i * KERNEL + k, (o * cin + i) * KERNEL + k);
  }

  lemma FlattenRow(rows: seq<seq<int>>, width: nat, o: nat, at: nat, index: nat)
    requires Shape2(rows, |rows|, width) && o < |rows| && at < width && index == o * width + at
    ensures index < |Flatten(rows)| && Flatten(rows)[index] == rows[o][at]
  {
    FlattenAt(rows, width, o, at);
  }

  lemma FlatIndex(o: nat, cin: nat, i: nat, kernel: nat, k: nat)
    ensures (o * cin + i) * kernel + k == o * (cin * kernel) + (i * kernel + k)
  {
  }

  // ----- double sums in either order -----

  function RowSum(f: (int, int) -> int, i: int, n: nat): int
  {
    if n == 0 then 0 else RowSum(f, i, n - 1) + f(i, n - 1)
  }

  function RowMajor(f: (int, int) -> int, m: nat, n: nat): int
  {
    if m == 0 then 0 else RowMajor(f, m - 1, n) + RowSum(f, m - 1, n)
  }

  function ColSum(f: (int, int) -> int, m: nat, j: int): int
  {
    if m == 0 then 0 else ColSum(f, m - 1, j) + f(m - 1, j)
  }

  function ColMajor(f: (int, int) -> int, m: nat, n: nat): int
  {
    if n == 0 then 0 else ColMajor(f, m, n - 1) + ColSum(f, m, n - 1)
  }

  lemma {:induction false} PeelRow(f: (int, int) -> int, m: nat, n: nat)
    requires m > 0
    ensures ColMajor(f, m, n) == ColMajor(f, m - 1, n) + RowSum(f, m - 1, n)
  {
    if n > 0 { PeelRow(f, m, n - 1); }
  }

  lemma {:induction false} SumExchange(f: (int, int) -> int, m: nat, n: nat)
    ensures RowMajor(f, m, n) == ColMajor(f, m, n)
    decreases m
  {
    if m > 0 {
      SumExchange(f, m - 1, n);
      PeelRow(f, m, n);
    } else {
      EmptyColumns(f, n);
    }
  }

  lemma {:induction false} EmptyColumns(f: (int, int) -> int, n: nat)
    ensures ColMajor(f, 0, n) == 0
  {
    if n > 0 { EmptyColumns(f, n - 1); }
  }

  // ----- _conv_int -----

  /** One entry of `einsum("oi,nil->nol", qw[:, :, j], xp[:, :, j*d : j*d + length])`. */
  function Einsum(qw: seq<seq<seq<int>>>, xp: seq<Column>, o: nat, p: nat, j: nat, d: nat, n: nat): int
    requires o < |qw| && n <= |qw[o]| && (forall i | 0 <= i < |qw[o]| :: |qw[o][i]| == KERNEL) && j < KERNEL
  {
    if n == 0 then 0
    else Einsum(qw, xp, o, p, j, d, n - 1) + qw[o][n - 1][j] * At(ColumnAt(xp, j * d + p), n - 1)
  }

  /** What the accumulation loop has added up after `j` taps. */
  function TapMajor(qw: seq<seq<seq<int>>>, xp: seq<Column>, o: nat, p: nat, d: nat, j: nat): int
    requires o < |qw| && (forall i | 0 <= i < |qw[o]| :: |qw[o][i]| == KERNEL) && j <= KERNEL
  {
    if j == 0 then 0
    else TapMajor(qw, xp, o, p, d, j - 1) + Einsum(qw, xp, o, p, j - 1, d, |qw[o]|)
  }

  function Padded(x: seq<Column>, cin: nat, d: nat): seq<Column>
  {
    seq((KERNEL - 1) * d, _ => seq(cin, _ => 0)) + x
  }

  /** A padding column of zeros contributes what a missing column does. */
  lemma PaddingReadsZero(x: seq<Column>, cin: nat, d: nat, p: nat, k: nat, i: nat)
    requires p < |x| && k < KERNEL
    ensures At(ColumnAt(Padded(x, cin, d), k * d + p), i) == At(ColumnAt(x, p - TapOffset(k, d)), i)
  {
    assert k * d + p == (KERNEL - 1) * d + (p - TapOffset(k, d));
    assert k * d <= (KERNEL - 1) * d;
  }

  /** The products, indexed by input channel and tap. */
  function Products(L: Layer, taps: seq<Column>, o: nat): (int, int) -> int
  {
    (i, k) => At(L.w, (o * L.cin + i) * KERNEL + k) * At(ColumnAt(taps, k), i)
  }

  lemma {:induction false} TapSumIsRow(L: Layer, taps: seq<Column>, o: nat, i: nat, k: nat)
    ensures TapSum(L.w, (o * L.cin + i) * KERNEL, taps, i, k) == RowSum(Products(L, taps, o), i, k)
  {
    if k > 0 { TapSumIsRow(L, taps, o, i, k - 1); }
  }

  lemma {:induction false} ChannelSumIsRows(L: Layer, taps: seq<Column>, o: nat, i: nat)
    ensures ChannelSum(L, taps, o, i) == RowMajor(Products(L, taps, o), i, KERNEL)
  {
    if i > 0 {
      ChannelSumIsRows(L, taps, o, i - 1);
      TapSumIsRow(L, taps, o, i - 1, KERNEL);
    }
  }

  lemma {:induction false} EinsumIsColumn(qw: seq<seq<seq<int>>>, L: Layer, x: seq<Column>, o: nat, p: nat, j: nat, n: nat)
    requires Shape3(qw, |qw|, L.cin) && L.w == Flatten3(qw) && o < |qw| && p < |x| && j < KERNEL && n <= L.cin
    ensures Einsum(qw, Padded(x, L.cin, L.dil), o, p, j, L.dil, n)
         == ColSum(Products(L, TapsAt(x, p, L.dil), o), n, j)
  {
    if n > 0 {
      EinsumIsColumn(qw, L, x, o, p, j, n - 1);
      EinsumTerm(qw, L, x, o, p, j, n - 1);
    }
  }

  lemma PaddedTap(L: Layer, x: seq<Column>, p: nat, j: nat, i: nat)
    requires p < |x| && j < KERNEL && i < L.cin
    ensures At(ColumnAt(Padded(x, L.cin, L.dil), j * L.dil + p), i) == At(ColumnAt(TapsAt(x, p, L.dil), j), i)
  {
    PaddingReadsZero(x, L.cin, L.dil, p, j, i);
  }

  lemma EinsumTerm(qw: seq<seq<seq<int>>>, L: Layer, x: seq<Column>, o: nat, p: nat, j: nat, i: nat)
    requires Shape3(qw, |qw|, L.cin) && L.w == Flatten3(qw) && o < |qw| && p < |x| && j < KERNEL && i < L.cin
    ensures qw[o][i][j] * At(ColumnAt(Padded(x, L.cin, L.dil), j * L.dil + p), i)
         == Products(L, TapsAt(x, p, L.dil), o)(i, j)
  {
    Flatten3At(qw, |qw|, L.cin, o, i, j);
    PaddedTap(L, x, p, j, i);
  }

  lemma {:induction false} TapMajorIsColumns(qw: seq<seq<seq<int>>>, L: Layer, x: seq<Column>, o: nat, p: nat, j: nat)
    requires Shape3(qw, |qw|, L.cin) && L.w == Flatten3(qw) && o < |qw| && p < |x| && j <= KERNEL
    ensures TapMajor(qw, Padded(x, L.cin, L.dil), o, p, L.dil, j)
         == ColMajor(Products(L, TapsAt(x, p, L.dil), o), L.cin, j)
  {
    if j > 0 {
      TapMajorIsColumns(qw, L, x, o, p, j - 1);
      EinsumIsColumn(qw, L, x, o, p, j - 1, L.cin);
    }
  }

  /** Tap by tap over the padded copy sums to the firmware's channel-by-channel order. */
  lemma TapMajorIsChannelSum(qw: seq<seq<seq<int>>>, L: Layer, x: seq<Column>, o: nat, p: nat)
    requires Shape3(qw, |qw|, L.cin) && L.w == Flatten3(qw) && o < |qw| && p < |x|
    ensures TapMajor(qw, Padded(x, L.cin, L.dil), o, p, L.dil, KERNEL) == ChannelSum(L, TapsAt(x, p, L.dil), o, L.cin)
  {
    TapMajorIsColumns(qw, L, x, o, p, KERNEL);
    ChannelSumIsRows(L, TapsAt(x, p, L.dil), o, L.cin);
    SumExchange(Products(L, TapsAt(x, p, L.dil), o), L.cin, KERNEL);
  }

  predicate GridShape(acc: seq<Column>, n: nat, cout: nat)
  {
    |acc| == n && forall p | 0 <= p < n :: |acc[p]| == cout
  }

  /** `acc += einsum(...)` for tap `j`. */
  function AddTap(acc: seq<Column>, qw: seq<seq<seq<int>>>, xp: seq<Column>, j: nat, d: nat): (r: seq<Column>)
    requires Shape3(qw, |qw|, if qw == [] then 0 else |qw[0]|) && GridShape(acc, |acc|, |qw|) && j < KERNEL
    ensures GridShape(r, |acc|, |qw|)
  {
    seq(|acc|, p requires 0 <= p < |acc| => seq(|qw|, o requires 0 <= o < |qw| =>
      acc[p][o] + Einsum(qw, xp, o, p, j, d, |qw[o]|)))
  }

  /** The accumulation loop: one einsum per tap over the zero-padded copy. */
  method AccumulateTaps(x: seq<Column>, qw: seq<seq<seq<int>>>, d: nat, cin: nat) returns (acc: seq<Column>)
    requires Shape3(qw, |qw|, cin)
    ensures GridShape(acc, |x|, |qw|)
    ensures forall p: nat, o: nat | p < |x| && o < |qw| :: acc[p][o] == TapMajor(qw, Padded(x, cin, d), o, p, d, KERNEL)
  {
    var xp := Padded(x, cin, d);
    acc := seq(|x|, _ => seq(|qw|, _ => 0));
    for j := 0 to KERNEL
      invariant GridShape(acc, |x|, |qw|)
      invariant forall p: nat, o: nat | p < |x| && o < |qw| :: acc[p][o] == TapMajor(qw, xp, o, p, d, j)
    {
      ghost var before := acc;
      acc := AddTap(acc, qw, xp, j, d);
      forall p: nat, o: nat | p < |x| && o < |qw|
        ensures acc[p][o] == TapMajor(qw, xp, o, p, d, j + 1)
      {
        assert before[p][o] == TapMajor(qw, xp, o, p, d, j);
      }
    }
  }

  /** `_conv_int` on one window, positions first. */
  method ConvInt(x: seq<Column>, qw: seq<seq<seq<int>>>, qb: seq<int>, d: nat, mult: int, shift: nat, cin: nat)
      returns (q: seq<Column>)
    requires Shape3(qw, |qw|, cin) && |qb| == |qw| && shift >= 1
    ensures q == ConvDense(Layer(Flatten3(qw), qb, cin, d, mult, shift), |qw|, x)
  {
    ghost var L := Layer(Flatten3(qw), qb, cin, d, mult, shift);
    var n, cout := |x|, |qw|;
    var acc := AccumulateTaps(x, qw, d, cin);
    q := seq(n, p requires 0 <= p < n => seq(cout, o requires 0 <= o < cout =>
      var a := Max0(acc[p][o] + qb[o]);
      var v := RoundHalfUpShift(a * mult, shift);
      if v > QMAX then QMAX else v));
    forall p | 0 <= p < n
      ensures q[p] == ConvColumn(L, cout, TapsAt(x, p, d))
    {
      forall o | 0 <= o < cout
        ensures q[p][o] == Neuron(L, TapsAt(x, p, d), o)
      {
        TapMajorIsChannelSum(qw, L, x, o, p);
      }
    }
  }

  // ----- int8_sim_windows -----

  /** `last @ hw.T`, one entry. */
  function Dot(row: seq<int>, last: Column, n: nat): int
    requires n <= |row|
  {
    if n == 0 then 0 else Dot(row, last, n - 1) + row[n - 1] * At(last, n - 1)
  }

  lemma {:induction false} DotIsHeadSum(qp: QuantParams, last: Column, o: nat, n: nat)
    requires ParamsOk(qp) && o < N_OUT && n <= qp.channels
    ensures Dot(qp.headW[o], last, n) == HeadSum(Emit(qp), last, o, n)
  {
    if n > 0 {
      DotIsHeadSum(qp, last, o, n - 1);
      FlattenAt(qp.headW, qp.channels, o, n - 1);
    }
  }

  /** `int8_sim_windows` on one window of any positive length: the six bits the emitted
    * model's dense network gives for the last time step. */
  method IntSimWindow(qp: QuantParams, raw: seq<Scan>) returns (bits: seq<bool>)
    requires ParamsOk(qp) && |raw| > 0
    ensures bits == seq(N_OUT, o requires 0 <= o < N_OUT => OutputBit(Emit(qp), Last(Emit(qp), raw), o))
  {
    ghost var m := Emit(qp);
    var act := seq(|raw|, p requires 0 <= p < |raw| => seq(N_IN, c requires 0 <= c < N_IN =>
      Clamp(RoundHalfUpShift(At(raw[p], c) * qp.mIn[c] - qp.bIn[c], qp.sInShift), -QMAX, QMAX)));
    assert act == Act(m, 0, raw) by {
      forall p | 0 <= p < |raw|
        ensures act[p] == QuantColumn(m, raw[p])
      {
      }
    }
    var l := 0;
    while l < N_LAYERS
      invariant l <= N_LAYERS && act == Act(m, l, raw)
    {
      act := ConvInt(act, qp.convW[l], qp.convB[l], qp.dilations[l], qp.convMult[l], qp.convShift[l],
                     if l == 0 then N_IN else qp.channels);
      assert m.layers[l] == EmitLayer(qp, l);
      l := l + 1;
    }
    var last := act[|act| - 1];
    bits := seq(N_OUT, o requires 0 <= o < N_OUT => Dot(qp.headW[o], last, qp.channels) + qp.headB[o] >= qp.headTq[o]);
    forall o | 0 <= o < N_OUT
      ensures bits[o] == OutputBit(m, last, o)
    {
      DotIsHeadSum(qp, last, o, qp.channels);
    }
  }

  /** The emitted model field by field: every parameter of layer `l` where the engines read it. */
  lemma EmitMeans(qp: QuantParams, l: nat, o: nat, i: nat, k: nat)
    requires ParamsOk(qp) && l < 3 && o < qp.channels && i < (if l == 0 then 5 else qp.channels) && k < 5
    ensures var m := Emit(qp);
            var L := m.layers[l];
      && m.channels == qp.channels && |m.layers| == 3 && L.cin == (if l == 0 then 5 else qp.channels)
      && At(L.w, (o * L.cin + i) * 5 + k) == qp.convW[l][o][i][k]
      && L.b[o] == qp.convB[l][o] && L.dil == qp.dilations[l] && L.mult == qp.convMult[l] && L.shift == qp.convShift[l]
      && m.mIn == qp.mIn && m.bIn == qp.bIn && m.sInShift == qp.sInShift && m.headB == qp.headB && m.headTq == qp.headTq
      && m.strumHold == qp.strumHold && m.strumRefractory == qp.strumRefractory
  {
    var cin := if l == 0 then N_IN else qp.channels;
    assert Emit(qp).layers[l] == EmitLayer(qp, l);
    assert Shape3(qp.convW[l], qp.channels, cin);
    Flatten3At(qp.convW[l], qp.channels, cin, o, i, k);
  }

  lemma EmitHead(qp: QuantParams, o: nat, i: nat)
    requires ParamsOk(qp) && o < 6 && i < qp.channels
    ensures At(Emit(qp).headW, o * qp.channels + i) == qp.headW[o][i]
  {
    FlattenAt(qp.headW, qp.channels, o, i);
  }
}
