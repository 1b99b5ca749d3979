/** The recompute engine (model_infer.c): a ring of the last 85 scans, and each run
  * evaluates the network only at the positions the last time step needs. */
module WindowEngine {
  import opened Words
  import opened Wrappers
  import opened Layers
  import opened Kernels
  import opened StrumPulse

  /** Some tap of position `q` reads position `p`. */
  ghost predicate Reads(q: int, p: int, dil: nat)
  {
    0 <= p && exists j | 0 <= j < KERNEL :: TapBack(q, j, dil) == p
  }

  function TapBack(q: int, j: int, dil: int): int { q - j * dil }

  /** Layer row `l` must be evaluated at `p`: the top row at its last position, each
    * lower row wherever a tap of a needed position reads. */
  ghost predicate Needed(m: Model, l: nat, p: int)
    requires |m.layers| == N_LAYERS && l < N_LAYERS
    decreases N_LAYERS - l, 0
  {
    if l == N_LAYERS - 1 then p == WINDOW - 1 else ReadFromBelow(m, l + 1, p, WINDOW)
  }

  /** Some needed position of row `l` before `bound` reads position `p` of the row below. */
  ghost predicate ReadFromBelow(m: Model, l: nat, p: int, bound: int)
    requires |m.layers| == N_LAYERS && l < N_LAYERS
    decreases N_LAYERS - l, 1
  {
    exists q | 0 <= q < bound :: Needed(m, l, q) && Reads(q, p, m.layers[l].dil)
  }

  lemma ReadFromOneMore(m: Model, l: nat, bound: nat, next: nat)
    requires |m.layers| == N_LAYERS && l < N_LAYERS && next == bound + 1
    ensures forall p :: (ReadFromBelow(m, l, p, next) ==
            (ReadFromBelow(m, l, p, bound) || (Needed(m, l, bound) && Reads(bound, p, m.layers[l].dil))))
  {
  }

  /** The window after `adc` pushes out the oldest scan. */
  function Slide(window: seq<Scan>, adc: Scan): seq<Scan>
    requires |window| == WINDOW
  {
    window[1..] + [adc]
  }

  class WindowEngine {
    var model: Option<Model>
    const ring: array<Scan>       // s_ring: oldest scan at pos when full
    var pos: nat
    var count: nat
    const need: array2<bool>      // s_need
    const cols: array2<Column>    // row 0 is s_qin, row l + 1 is s_act[l]
    var shot: OneShot             // s_tick, s_hold_until, s_block_until, s_prev_strum

    ghost predicate Valid()
      reads this, ring, need
    {
      && ring.Length == WINDOW && pos < WINDOW && count <= WINDOW
      && (forall j | 0 <= j < WINDOW :: ScanOk(ring[j]))
      && need.Length0 == N_LAYERS && need.Length1 == WINDOW
      && cols.Length0 == N_LAYERS + 1 && cols.Length1 == WINDOW
      && (model.Some? ==> ModelOk(model.value) && NeedTableFor(model.value))
    }

    ghost predicate NeedTableFor(m: Model)
      reads need
      requires |m.layers| == N_LAYERS && need.Length0 == N_LAYERS && need.Length1 == WINDOW
    {
      forall l, p | 0 <= l < N_LAYERS && 0 <= p < WINDOW :: need[l, p] == Needed(m, l, p)
    }

    /** The buffered scans, oldest first. */
    ghost function Window(): (w: seq<Scan>)
      reads this, ring
      requires ring.Length == WINDOW && pos < WINDOW
      ensures |w| == WINDOW
    {
      ring[pos..] + ring[..pos]
    }

    /** `model_infer_init`, before a model is selected. The ring and scratch are zeroed statics. */
    constructor ()
      ensures Valid() && model == None && count == 0 && shot == IDLE
      ensures fresh(ring) && fresh(need) && fresh(cols)
    {
      model := None;
      pos, count, shot := 0, 0, IDLE;
      ring := new Scan[WINDOW](_ => [0, 0, 0, 0, 0]);
      need := new bool[N_LAYERS, WINDOW]((_, _) => false);
      cols := new Column[N_LAYERS + 1, WINDOW]((_, _) => []);
    }

    /** `model_infer_push`. */
    method Push(adc: Scan)
      requires Valid() && ScanOk(adc)
      modifies this, ring
      ensures Valid() && model == old(model) && shot == old(shot)
      ensures Window() == Slide(old(Window()), adc)
      ensures count == if old(count) < WINDOW then old(count) + 1 else WINDOW
    {
      ring[pos] := adc;
      pos := (pos + 1) % WINDOW;
      if count < WINDOW { count := count + 1; }
      assert Window() == Slide(old(Window()), adc);
    }

    /** `model_infer_set_model`: back-propagates the needed positions. */
    method SetModel(m: Option<Model>)
      requires Valid() && (m.Some? ==> ModelOk(m.value))
      modifies this`model, need
      ensures Valid() && model == m
      ensures m.Some? ==> NeedTableFor(m.value)
    {
      model := m;
      if m == None { return; }
      BackPropagate(m.value);
    }

    method BackPropagate(m: Model)
      requires ModelOk(m) && need.Length0 == N_LAYERS && need.Length1 == WINDOW
      modifies need
      ensures NeedTableFor(m)
    {
      forall l, p | 0 <= l < N_LAYERS && 0 <= p < WINDOW { need[l, p] := false; }
      need[N_LAYERS - 1, WINDOW - 1] := true;
      var l := N_LAYERS - 1;
      while l >= 1
        invariant 0 <= l < N_LAYERS
        invariant forall r, q | l <= r < N_LAYERS && 0 <= q < WINDOW :: need[r, q] == Needed(m, r, q)
        invariant forall r, q | 0 <= r < l && 0 <= q < WINDOW :: !need[r, q]
      {
        BackPropagateRow(m, l);
        l := l - 1;
      }
    }

    /** One pass of the outer loop: row `l` marks row `l - 1`. */
    method BackPropagateRow(m: Model, l: nat)
      requires ModelOk(m) && 1 <= l < N_LAYERS && need.Length0 == N_LAYERS && need.Length1 == WINDOW
      requires forall r, q | l <= r < N_LAYERS && 0 <= q < WINDOW :: need[r, q] == Needed(m, r, q)
      requires forall r, q | 0 <= r < l && 0 <= q < WINDOW :: !need[r, q]
      modifies need
      ensures forall r, q | l - 1 <= r < N_LAYERS && 0 <= q < WINDOW :: need[r, q] == Needed(m, r, q)
      ensures forall r, q | 0 <= r < l - 1 && 0 <= q < WINDOW :: !need[r, q]
    {
      for p := 0 to WINDOW
        invariant forall r, q | 0 <= r < N_LAYERS && r != l - 1 && 0 <= q < WINDOW :: need[r, q] == old(need[r, q])
        invariant forall q | 0 <= q < WINDOW :: need[l - 1, q] == ReadFromBelow(m, l, q, p)
      {
        ghost var dil := m.layers[l].dil;
        ghost var before := seq(WINDOW, q requires 0 <= q < WINDOW reads need => need[l - 1, q]);
        assert need[l, p] == Needed(m, l, p);
        if need[l, p] {
          MarkTaps(m.layers[l].dil, l - 1, p);
        }
        assert forall q | 0 <= q < WINDOW :: need[l - 1, q] == (before[q] || (Needed(m, l, p) && Reads(p, q, dil)));
        ghost var next := p + 1;
        ReadFromOneMore(m, l, p, next);
        assert forall q | 0 <= q < WINDOW :: need[l - 1, q] == ReadFromBelow(m, l, q, next);
      }
    }

    /** Marks every in-range tap of position `p` in row `r`. */
    method MarkTaps(dil: nat, r: nat, p: nat)
      requires r < need.Length0 == N_LAYERS && p < need.Length1 == WINDOW
      modifies need
      ensures forall s, q | 0 <= s < N_LAYERS && s != r && 0 <= q < WINDOW :: need[s, q] == old(need[s, q])
      ensures forall q | 0 <= q < WINDOW :: need[r, q] == (old(need[r, q]) || Reads(p, q, dil))
    {
      for j := 0 to KERNEL
        invariant forall s, q | 0 <= s < N_LAYERS && s != r && 0 <= q < WINDOW :: need[s, q] == old(need[s, q])
        invariant forall q | 0 <= q < WINDOW ::
            need[r, q] == (old(need[r, q]) || exists i | 0 <= i < j :: TapBack(p, i, dil) == q)
      {
        var q := p - j * dil;
        assert q == TapBack(p, j, dil) && q <= p;
        if q >= 0 {
          need[r, q] := true;
        }
      }
    }

    /** The columns under the taps at position `p`, read from row `l`. */
    ghost function RowTaps(l: nat, p: nat, dil: nat): seq<Column>
      reads cols
      requires l < cols.Length0 && p < cols.Length1
    {
      seq(KERNEL, k requires 0 <= k < KERNEL reads cols =>
        if p - TapOffset(k, dil) >= 0 then cols[l, p - TapOffset(k, dil)] else [])
    }

    ghost predicate RowTapsOk(l: nat, p: nat, dil: nat, cin: nat)
      reads cols
      requires l < cols.Length0 && p < cols.Length1
    {
      forall k | 0 <= k < KERNEL && p - TapOffset(k, dil) >= 0 :: ColumnOk(RowTaps(l, p, dil)[k], cin)
    }

    /** `conv_at`: one causal int8 convolution column at position `p` of row `l`. */
    method ConvAt(L: Layer, channels: nat, l: nat, p: nat) returns (out: Column)
      requires l < cols.Length0 && p < cols.Length1 && LayerOk(L, channels)
      requires RowTapsOk(l, p, L.dil, L.cin)
      ensures out == ConvColumn(L, channels, RowTaps(l, p, L.dil))
    {
      out := [];
      ghost var taps := RowTaps(l, p, L.dil);
      for o := 0 to channels
        invariant |out| == o
        invariant forall j | 0 <= j < o :: out[j] == Neuron(L, taps, j)
      {
        var acc := L.b[o];
        for i := 0 to L.cin
          invariant acc == L.b[o] + ChannelSum(L, taps, o, i)
        {
          acc := Dot(L, channels, l, p, o, i, acc);
        }
        AccumulatorRange(L, channels, taps, o);
        var v := RequantAcc(acc, L.mult, L.shift);
        out := out + [v];
      }
    }

    /** The innermost loop: the taps of one input channel, none before the window. */
    method Dot(L: Layer, channels: nat, l: nat, p: nat, o: nat, i: nat, acc0: int) returns (acc: int)
      requires l < cols.Length0 && p < cols.Length1 && LayerOk(L, channels) && o < channels && i < L.cin
      requires RowTapsOk(l, p, L.dil, L.cin)
      requires acc0 == L.b[o] + ChannelSum(L, RowTaps(l, p, L.dil), o, i)
      ensures acc == L.b[o] + ChannelSum(L, RowTaps(l, p, L.dil), o, i + 1)
    {
      ghost var taps := RowTaps(l, p, L.dil);
      acc := acc0;
      NoAccumulatorOverflow(L, channels, taps, o, i, 0);
      var base := (o * L.cin + i) * KERNEL;
      for k := 0 to KERNEL
        invariant acc == acc0 + TapSum(L.w, base, taps, i, k)
        invariant IsInt32(acc)
      {
        WeightIndex(o, i, k, channels, L.cin);
        NoAccumulatorOverflow(L, channels, taps, o, i, k + 1);
        var q := p - (KERNEL - 1 - k) * L.dil;
        assert q == p - TapOffset(k, L.dil) && q <= p;
        if q >= 0 {
          assert taps[k] == cols[l, q];
          acc := acc + L.w[base + k] * cols[l, q][i];
        }
      }
    }

    /** Row `l` agrees with the dense columns wherever it is needed (row 0 everywhere). */
    ghost predicate RowDone(m: Model, l: nat, dense: seq<Column>, upTo: int)
      reads cols
      requires |m.layers| == N_LAYERS && l <= N_LAYERS && |dense| == WINDOW
      requires cols.Length0 == N_LAYERS + 1 && cols.Length1 == WINDOW
    {
      forall p | 0 <= p < upTo && p < WINDOW && (l > 0 ==> Needed(m, l - 1, p)) :: cols[l, p] == dense[p]
    }

    /** Standardises the whole window into row 0. */
    method Standardise(m: Model)
      requires Valid() && ModelOk(m)
      modifies cols
      ensures RowDone(m, 0, Act(m, 0, Window()), WINDOW)
    {
      ghost var window := Window();
      for wpos := 0 to WINDOW
        invariant RowDone(m, 0, Act(m, 0, window), wpos)
      {
        var ringIdx := (pos + wpos) % WINDOW;
        assert ring[ringIdx] == window[wpos];
        var col := QuantScan(m, ring[ringIdx]);
        cols[0, wpos] := col;
      }
    }

    lemma TapInPlace(m: Model, l: nat, dense: seq<Column>, p: nat, k: nat)
      requires Valid() && ModelOk(m) && l < N_LAYERS && |dense| == WINDOW && p < WINDOW && k < KERNEL
      requires RowDone(m, l, dense, WINDOW) && Needed(m, l, p)
      ensures var q := p - TapOffset(k, m.layers[l].dil);
              q >= 0 ==> q < WINDOW && cols[l, q] == dense[q]
    {
      var d := m.layers[l].dil;
      var q := p - TapOffset(k, d);
      assert q == TapBack(p, KERNEL - 1 - k, d) && q <= p;
      if q >= 0 && l > 0 {
        assert Reads(p, q, d);
        assert ReadFromBelow(m, l, q, WINDOW);
        assert Needed(m, l - 1, q);
      }
    }

    /** The taps of a needed position are all in place, so they equal the dense ones. */
    lemma TapsInPlace(m: Model, l: nat, dense: seq<Column>, p: nat)
      requires Valid() && ModelOk(m) && l < N_LAYERS && |dense| == WINDOW && p < WINDOW
      requires RowDone(m, l, dense, WINDOW) && Needed(m, l, p)
      requires forall q | 0 <= q < WINDOW :: ColumnOk(dense[q], m.layers[l].cin)
      ensures RowTaps(l, p, m.layers[l].dil) == TapsAt(dense, p, m.layers[l].dil)
      ensures RowTapsOk(l, p, m.layers[l].dil, m.layers[l].cin)
    {
      var d := m.layers[l].dil;
      forall k | 0 <= k < KERNEL
        ensures RowTaps(l, p, d)[k] == ColumnAt(dense, p - TapOffset(k, d))
        ensures p - TapOffset(k, d) >= 0 ==> ColumnOk(RowTaps(l, p, d)[k], m.layers[l].cin)
      {
        TapInPlace(m, l, dense, p, k);
      }
    }

    /** Layer `l` at its needed positions. */
    method RunLayer(m: Model, l: nat, ghost dense: seq<Column>)
      requires Valid() && model == Some(m) && l < N_LAYERS && |dense| == WINDOW
      requires RowDone(m, l, dense, WINDOW)
      requires forall q | 0 <= q < WINDOW :: ColumnOk(dense[q], m.layers[l].cin)
      modifies cols
      ensures RowDone(m, l + 1, ConvDense(m.layers[l], m.channels, dense), WINDOW)
    {
      ghost var next := ConvDense(m.layers[l], m.channels, dense);
      for p := 0 to WINDOW
        invariant RowDone(m, l, dense, WINDOW)
        invariant RowDone(m, l + 1, next, p)
      {
        if need[l, p] {
          TapsInPlace(m, l, dense, p);
          var col := ConvAt(m.layers[l], m.channels, l, p);
          cols[l + 1, p] := col;
        }
      }
    }

    /** All layers: the top row's last column is the dense one, whatever the scratch
      * arrays held before, so every activation read was written in this run. */
    method RunLayers(m: Model)
      requires Valid() && model == Some(m)
      modifies cols
      ensures cols[N_LAYERS, WINDOW - 1] == Last(m, Window())
    {
      ghost var window := Window();
      Standardise(m);
      var l := 0;
      while l < N_LAYERS
        invariant l <= N_LAYERS && RowDone(m, l, Act(m, l, window), WINDOW)
      {
        ActRange(m, l, window);
        RunLayer(m, l, Act(m, l, window));
        l := l + 1;
      }
      LastInPlace(m, l, window);
    }

    lemma LastInPlace(m: Model, l: nat, window: seq<Scan>)
      requires Valid() && ModelOk(m) && l == N_LAYERS && |window| == WINDOW
      requires RowDone(m, l, Act(m, l, window), WINDOW)
      ensures cols[l, WINDOW - 1] == Last(m, window)
    {
      assert Needed(m, l - 1, WINDOW - 1);
      assert cols[l, WINDOW - 1] == Act(m, l, window)[WINDOW - 1];
    }

    /** `model_infer_run`: sparse evaluation gives the dense verdict on the window. */
    method Run() returns (mask: nat)
      requires Valid()
      modifies this`shot, cols
      ensures Valid()
      ensures model == None || count < WINDOW ==> mask == 0 && shot == old(shot)
      ensures model.Some? && count == WINDOW ==> (shot, mask) == Verdict(model.value, Last(model.value, Window()), old(shot))
    {
      if model == None || count < WINDOW { return 0; }
      var m := model.value;
      RunLayers(m);
      LastRange(m, Window());
      mask := Conclude(m, cols[N_LAYERS, WINDOW - 1]);
    }

    /** The tail of `model_infer_run`: head on the last time step, then the monostable. */
    method Conclude(m: Model, last: Column) returns (mask: nat)
      requires ModelOk(m) && ColumnOk(last, m.channels)
      modifies this`shot
      ensures (shot, mask) == Verdict(m, last, old(shot))
    {
      var frets, rawStrum := Head(m, last);
      var strum;
      shot, strum := StrumStep(shot, rawStrum, m.strumHold, m.strumRefractory);
      mask := frets;
      if strum { mask := mask + STRUM_BIT; }
    }
  }

  /** The strum monostable as the firmware writes it. */
  method StrumStep(s: OneShot, rawStrum: bool, hold: nat, refractory: nat) returns (s': OneShot, out: bool)
    ensures (s', out) == Tick(s, rawStrum, hold, refractory)
  {
    s' := s;
    if hold > 0 {
      var i := s'.tick;
      if rawStrum && !s'.prev && i >= s'.blockUntil {
        s' := s'.(holdUntil := Wrap32(i + hold), blockUntil := Wrap32(i + hold + refractory));
      }
      out := i < s'.holdUntil;
      s' := s'.(prev := rawStrum, tick := Wrap32(i + 1));
    } else {
      out := rawStrum;
    }
  }
}
