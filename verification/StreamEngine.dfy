/** The streaming engine (model_infer_stream.c): one new column per layer per scan,
  * older columns kept in three rings. */
module StreamEngine {
  import opened Words
  import opened Wrappers
  import opened Layers
  import opened Kernels
  import opened StrumPulse
  import WindowEngine

  const Q_RING := 5
  const L0_RING := 17
  const L1_RING := 65

  /** A ring of columns and the index of its newest one. */
  datatype Ring = Ring(slots: seq<Column>, head: nat)

  /** Everything the engine keeps between scans. */
  datatype State = State(model: Option<Model>, rf: nat, count: nat, q: Ring, l0: Ring, l1: Ring, shot: OneShot)

  predicate RingOk(r: Ring, len: nat, width: nat)
  {
    |r.slots| == len && r.head < len && forall j | 0 <= j < len :: ColumnOk(r.slots[j], width)
  }

  /** Each ring reaches back to the deepest tap its consumer reads. */
  predicate DilationsFit(m: Model)
    requires |m.layers| == N_LAYERS
  {
    && (KERNEL - 1) * m.layers[0].dil + 1 <= Q_RING
    && (KERNEL - 1) * m.layers[1].dil + 1 <= L0_RING
    && (KERNEL - 1) * m.layers[2].dil + 1 <= L1_RING
  }

  /** What the build fixes: array sizes, the channel count, a model the rings fit. */
  ghost predicate StateOk(s: State, channels: nat)
  {
    && RingOk(s.q, Q_RING, N_IN) && RingOk(s.l0, L0_RING, channels) && RingOk(s.l1, L1_RING, channels)
    && s.count < U32
    && (s.model.Some? ==>
          var m := s.model.value;
          ModelOk(m) && m.channels == channels && DilationsFit(m) && s.rf == ReceptiveField(m))
  }

  /** Array sizes, head positions and a model the rings fit; the contents are arbitrary. */
  predicate Shape(s: State)
  {
    && s.model.Some? && |s.model.value.layers| == N_LAYERS && DilationsFit(s.model.value)
    && |s.q.slots| == Q_RING && |s.l0.slots| == L0_RING && |s.l1.slots| == L1_RING
    && s.q.head < Q_RING && s.l0.head < L0_RING && s.l1.head < L1_RING
  }

  /** The slot `off` places behind `head`. */
  function Slot(head: nat, off: nat, len: nat): nat
    requires head < len && off < len
  {
    if off <= head then head - off else head - off + len
  }

  /** The ring after its head advances onto a new column. */
  function Advance(r: Ring, col: Column): Ring
    requires r.head < |r.slots|
  {
    var h := (r.head + 1) % |r.slots|;
    Ring(r.slots[h := col], h)
  }

  /** The columns under the taps; a tap at or before the stream start has none. */
  function RingTaps(r: Ring, count: nat, dil: nat): seq<Column>
    requires r.head < |r.slots| && (KERNEL - 1) * dil < |r.slots|
  {
    seq(KERNEL, k requires 0 <= k < KERNEL =>
      if TapOffset(k, dil) >= count then []
      else assert TapOffset(k, dil) <= (KERNEL - 1) * dil; r.slots[Slot(r.head, TapOffset(k, dil), |r.slots|)])
  }

  /** One scan through the three layers. */
  function StepColumns(s: State, adc: Scan): (State, Column)
    requires Shape(s)
  {
    var m := s.model.value;
    var count := Wrap32(s.count + 1);
    var q := Advance(s.q, QuantColumn(m, adc));
    var l0 := Advance(s.l0, ConvColumn(m.layers[0], m.channels, RingTaps(q, count, m.layers[0].dil)));
    var l1 := Advance(s.l1, ConvColumn(m.layers[1], m.channels, RingTaps(l0, count, m.layers[1].dil)));
    var l2 := ConvColumn(m.layers[2], m.channels, RingTaps(l1, count, m.layers[2].dil));
    (s.(count := count, q := q, l0 := l0, l1 := l1), l2)
  }

  /** `model_infer_stream_step` as a function of the whole state. */
  function Step(s: State, adc: Scan): (State, nat)
    requires s.model.Some? ==> Shape(s)
  {
    if s.model == None then (s, 0) else
    var (s', l2) := StepColumns(s, adc);
    Conclude(s', l2)
  }

  /** Nothing until the receptive field has filled, then the head and the one-shot. */
  function Conclude(s: State, l2: Column): (State, nat)
    requires s.model.Some?
  {
    if s.count < s.rf then (s, 0) else
    var (shot, mask) := Verdict(s.model.value, l2, s.shot);
    (s.(shot := shot), mask)
  }

  class StreamEngine {
    var model: Option<Model>
    var rf: nat
    var count: nat
    const qin: array<Column>
    const l0: array<Column>
    const l1: array<Column>
    var qh: nat
    var l0h: nat
    var l1h: nat
    var shot: OneShot
    const channels: nat

    ghost function Now(): State
      reads this, qin, l0, l1
    {
      State(model, rf, count, Ring(qin[..], qh), Ring(l0[..], l0h), Ring(l1[..], l1h), shot)
    }

    ghost predicate Valid()
      reads this, qin, l0, l1
    {
      StateOk(Now(), channels) && qin != l0 && qin != l1 && l0 != l1
    }

    /** `model_infer_stream_init`, before a model is selected. */
    constructor (channels: nat)
      ensures Valid() && fresh(qin) && fresh(l0) && fresh(l1)
      ensures this.channels == channels && model == None && count == 0 && shot == IDLE
    {
      this.channels := channels;
      model, rf, count, shot := None, 1, 0, IDLE;
      qh, l0h, l1h := 0, 0, 0;
      qin := new Column[Q_RING](_ => seq(N_IN, _ => 0));
      l0 := new Column[L0_RING](_ => seq(channels, _ => 0));
      l1 := new Column[L1_RING](_ => seq(channels, _ => 0));
    }

    /** `model_infer_stream_set_model`: the rings keep whatever they hold. */
    method SetModel(m: Option<Model>)
      requires Valid()
      requires m.Some? ==> ModelOk(m.value) && m.value.channels == channels && DilationsFit(m.value)
      modifies this`model, this`rf
      ensures Valid()
      ensures Now() == old(Now()).(model := m, rf := if m.Some? then ReceptiveField(m.value) else old(rf))
    {
      model := m;
      if m == None { return; }
      rf := 1;
      for l := 0 to N_LAYERS
        invariant model == m && rf == 1 + Reach(m.value, l)
      {
        rf := rf + (KERNEL - 1) * m.value.layers[l].dil;
      }
      ReachIsReceptiveField(m.value);
    }

    /** The tap table of `conv_col`: ring indices, or -1 before the stream start. */
    method TapTable(dil: nat, ringLen: nat, head: nat) returns (tap: seq<int>)
      requires head < ringLen && (KERNEL - 1) * dil < ringLen
      ensures |tap| == KERNEL
      ensures forall k | 0 <= k < KERNEL ::
          tap[k] == if TapOffset(k, dil) >= count then -1
                    else assert TapOffset(k, dil) <= (KERNEL - 1) * dil; Slot(head, TapOffset(k, dil), ringLen)
    {
      tap := [];
      for k := 0 to KERNEL
        invariant |tap| == k
        invariant forall j | 0 <= j < k ::
            tap[j] == if TapOffset(j, dil) >= count then -1
                      else assert TapOffset(j, dil) <= (KERNEL - 1) * dil; Slot(head, TapOffset(j, dil), ringLen)
      {
        var off := (KERNEL - 1 - k) * dil;
        assert off == TapOffset(k, dil) <= (KERNEL - 1) * dil;
        RingIndexIdiom(head, off, ringLen);
        tap := tap + [if off >= count then -1 else CRem(CRem(head - off, ringLen) + ringLen, ringLen)];
      }
    }

    /** `conv_col`: one output column at the newest position of `ring`. */
    method ConvCol(L: Layer, ring: array<Column>, head: nat) returns (out: Column)
      requires LayerOk(L, channels) && (KERNEL - 1) * L.dil < ring.Length
      requires RingOk(Ring(ring[..], head), ring.Length, L.cin)
      ensures out == ConvColumn(L, channels, RingTaps(Ring(ring[..], head), count, L.dil))
      ensures ColumnOk(out, channels)
    {
      ghost var taps := RingTaps(Ring(ring[..], head), count, L.dil);
      var tap := TapTable(L.dil, ring.Length, head);
      assert TapsOk(taps, L.cin);
      out := [];
      for o := 0 to channels
        invariant |out| == o
        invariant forall j | 0 <= j < o :: out[j] == Neuron(L, taps, j)
      {
        var acc := L.b[o];
        for i := 0 to L.cin
          invariant acc == L.b[o] + ChannelSum(L, taps, o, i)
        {
          acc := Dot(L, ring, tap, taps, o, i, acc);
        }
        AccumulatorRange(L, channels, taps, o);
        var v := RequantAcc(acc, L.mult, L.shift);
        out := out + [v];
      }
      ColumnRange(L, channels, taps);
    }

    /** The innermost loop: the taps of one input channel. */
    method Dot(L: Layer, ring: array<Column>, tap: seq<int>, ghost taps: seq<Column>, o: nat, i: nat, acc0: int)
        returns (acc: int)
      requires LayerOk(L, channels) && TapsOk(taps, L.cin) && o < channels && i < L.cin
      requires |tap| == KERNEL && forall k | 0 <= k < KERNEL ::
          if tap[k] < 0 then taps[k] == [] else tap[k] < ring.Length && taps[k] == ring[tap[k]] && |taps[k]| == L.cin
      requires acc0 == L.b[o] + ChannelSum(L, taps, o, i)
      ensures acc == L.b[o] + ChannelSum(L, taps, o, i + 1)
    {
      acc := acc0;
      NoAccumulatorOverflow(L, channels, taps, o, i, 0);
      var base := (o * L.cin + i) * KERNEL;
      for k := 0 to KERNEL
        invariant acc == acc0 + TapSum(L.w, base, taps, i, k)
        invariant IsInt32(acc)
      {
        WeightIndex(o, i, k, channels, L.cin);
        NoAccumulatorOverflow(L, channels, taps, o, i, k + 1);
        if tap[k] >= 0 {
          acc := acc + L.w[base + k] * ring[tap[k]][i];
        }
      }
    }

    /** `model_infer_stream_step`. */
    method StepScan(adc: Scan) returns (mask: nat)
      requires Valid() && ScanOk(adc)
      modifies this, qin, l0, l1
      ensures Valid()
      ensures (Now(), mask) == Step(old(Now()), adc)
    {
      if model == None { return 0; }
      var l2 := AdvanceLayers(adc);
      mask := ConcludeScan(l2);
    }

    /** The tail of `model_infer_stream_step`: warm-up, head, strum monostable. */
    method ConcludeScan(l2: Column) returns (mask: nat)
      requires Valid() && model.Some? && ColumnOk(l2, channels)
      modifies this`shot
      ensures Valid()
      ensures (Now(), mask) == Conclude(old(Now()), l2)
    {
      if count < rf { return 0; }
      var m := model.value;
      var frets, rawStrum := Head(m, l2);
      var strum;
      shot, strum := WindowEngine.StrumStep(shot, rawStrum, m.strumHold, m.strumRefractory);
      mask := frets;
      if strum { mask := mask + STRUM_BIT; }
    }

    /** The input affine and the three convolutions, each writing its ring's new head. */
    method AdvanceLayers(adc: Scan) returns (l2: Column)
      requires Valid() && model.Some? && ScanOk(adc)
      modifies this, qin, l0, l1
      ensures Valid() && ColumnOk(l2, channels)
      ensures (Now(), l2) == StepColumns(old(Now()), adc)
    {
      var m := model.value;
      count := Wrap32(count + 1);
      var col := QuantScan(m, adc);
      qh := (qh + 1) % Q_RING;
      qin[qh] := col;
      assert Ring(qin[..], qh) == Advance(old(Now()).q, col);

      col := ConvCol(m.layers[0], qin, qh);
      l0h := (l0h + 1) % L0_RING;
      l0[l0h] := col;
      assert Ring(l0[..], l0h) == Advance(old(Now()).l0, col);

      col := ConvCol(m.layers[1], l0, l0h);
      l1h := (l1h + 1) % L1_RING;
      l1[l1h] := col;
      assert Ring(l1[..], l1h) == Advance(old(Now()).l1, col);

      l2 := ConvCol(m.layers[2], l1, l1h);
    }
  }
}
