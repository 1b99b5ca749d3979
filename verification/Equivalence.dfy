/** The three implementations give the same bits: whole-run refinement of the recompute
  * engine by the streaming one, both tied to the host reference, and the streaming
  * engine's recovery from arbitrary ring contents. */
module Equivalence {
  import opened Words
  import opened Wrappers
  import opened Layers
  import opened Kernels
  import opened StrumPulse
  import opened StreamEngine
  import W = WindowEngine

  /** The streaming state after a sequence of scans. */
  function After(s: State, xs: seq<Scan>): (r: State)
    requires Shape(s)
    ensures Shape(r) && r.model == s.model && r.rf == s.rf
  {
    if xs == [] then s else Step(After(s, xs[..|xs| - 1]), xs[|xs| - 1]).0
  }

  /** The layer-2 column computed for the last scan of `xs`. */
  function TopColumn(s: State, xs: seq<Scan>): Column
    requires Shape(s) && xs != []
  {
    StepColumns(After(s, xs[..|xs| - 1]), xs[|xs| - 1]).1
  }

  /** The byte returned for the last scan of `xs`. */
  function Output(s: State, xs: seq<Scan>): nat
    requires Shape(s) && xs != []
  {
    Step(After(s, xs[..|xs| - 1]), xs[|xs| - 1]).1
  }

  // ----- what the rings hold -----

  function Newest(r: Ring): Column
    requires r.head < |r.slots|
  {
    r.slots[r.head]
  }

  /** Every layer-0 column computed during the run, oldest first. */
  function L0Columns(s: State, xs: seq<Scan>): (r: seq<Column>)
    requires Shape(s)
    ensures |r| == |xs|
  {
    if xs == [] then [] else L0Columns(s, xs[..|xs| - 1]) + [Newest(After(s, xs).l0)]
  }

  /** Every layer-1 column computed during the run. */
  function L1Columns(s: State, xs: seq<Scan>): (r: seq<Column>)
    requires Shape(s)
    ensures |r| == |xs|
  {
    if xs == [] then [] else L1Columns(s, xs[..|xs| - 1]) + [Newest(After(s, xs).l1)]
  }

  /** The ring's slots, newest first, are the tail of `hist`; older slots are arbitrary. */
  ghost predicate Holds(r: Ring, hist: seq<Column>)
  {
    r.head < |r.slots| &&
    forall j | 0 <= j < |r.slots| && j < |hist| :: r.slots[Slot(r.head, j, |r.slots|)] == hist[|hist| - 1 - j]
  }

  lemma NextHead(head: nat, n: nat)
    requires head < n
    ensures (head + 1) % n == if head + 1 == n then 0 else head + 1
  {
    if head + 1 < n { SmallMod(head + 1, n); }
  }

  /** Slots counted back from the head after it moved on. */
  lemma SlotBehind(head: nat, head': nat, j: nat, n: nat)
    requires head < n && 0 < j < n && head' == if head + 1 == n then 0 else head + 1
    ensures Slot(head', j, n) == Slot(head, j - 1, n) != head'
  {
  }

  lemma AdvanceHolds(r: Ring, hist: seq<Column>, col: Column)
    requires Holds(r, hist)
    ensures Holds(Advance(r, col), hist + [col])
  {
    var r', n, longer := Advance(r, col), |r.slots|, hist + [col];
    NextHead(r.head, n);
    forall j | 0 <= j < |r'.slots| && j < |longer|
      ensures r'.slots[Slot(r'.head, j, |r'.slots|)] == longer[|longer| - 1 - j]
    {
      if j > 0 {
        SlotBehind(r.head, r'.head, j, n);
        assert longer[|longer| - 1 - j] == hist[|hist| - 1 - (j - 1)];
      }
    }
  }

  lemma TapWithin(k: nat, dil: nat)
    requires k < KERNEL
    ensures TapOffset(k, dil) <= (KERNEL - 1) * dil
  {
  }

  /** One tap off the ring. */
  lemma TapFromHistory(r: Ring, hist: seq<Column>, count: nat, off: nat)
    requires Holds(r, hist) && off < |r.slots| && hist != []
    requires count == |hist| || off < |hist| <= count
    ensures (if off >= count then [] else r.slots[Slot(r.head, off, |r.slots|)]) == ColumnAt(hist, |hist| - 1 - off)
  {
  }

  /** Where the history reaches far enough, or starts with the stream itself, ring taps
    * are the causal taps of the history. */
  lemma TapsFromHistory(r: Ring, hist: seq<Column>, count: nat, dil: nat)
    requires Holds(r, hist) && (KERNEL - 1) * dil < |r.slots| && hist != []
    requires count == |hist| || (KERNEL - 1) * dil < |hist| <= count
    ensures RingTaps(r, count, dil) == TapsAt(hist, |hist| - 1, dil)
  {
    forall k | 0 <= k < KERNEL
      ensures RingTaps(r, count, dil)[k] == ColumnAt(hist, |hist| - 1 - TapOffset(k, dil))
    {
      TapWithin(k, dil);
      TapFromHistory(r, hist, count, TapOffset(k, dil));
    }
  }

  /** One step moves each ring on by the column computed for it. */
  lemma StepRings(u: State, adc: Scan)
    requires Shape(u) && u.count + 1 < U32
    ensures var t := Step(u, adc).0;
            t.count == u.count + 1 && t.q == Advance(u.q, QuantColumn(u.model.value, adc)) &&
            t.l0 == Advance(u.l0, Newest(t.l0)) && t.l1 == Advance(u.l1, Newest(t.l1))
  {
  }

  lemma QuantGrows(m: Model, l: nat, front: seq<Scan>, adc: Scan)
    requires |m.layers| == N_LAYERS && l == 0
    ensures Act(m, l, front + [adc]) == Act(m, l, front) + [QuantColumn(m, adc)]
  {
  }

  /** Throughout a run the three rings hold the most recent columns of their layers. */
  lemma {:induction false} RingsHold(s: State, xs: seq<Scan>)
    requires Shape(s) && s.count + |xs| < U32
    ensures var m, t := s.model.value, After(s, xs);
            t.count == s.count + |xs| && Holds(t.q, Act(m, 0, xs)) &&
            Holds(t.l0, L0Columns(s, xs)) && Holds(t.l1, L1Columns(s, xs))
  {
    if xs != [] {
      var front := xs[..|xs| - 1];
      var adc := xs[|xs| - 1];
      var m, u, t := s.model.value, After(s, front), After(s, xs);
      RingsHold(s, front);
      StepRings(u, adc);
      QuantGrows(m, 0, front, adc);
      assert front + [adc] == xs;
      AdvanceHolds(u.q, Act(m, 0, front), QuantColumn(m, adc));
      AdvanceHolds(u.l0, L0Columns(s, front), Newest(t.l0));
      AdvanceHolds(u.l1, L1Columns(s, front), Newest(t.l1));
    }
  }

  /** First position of layer `l` that no leftover ring contents can have touched. */
  function CleanFrom(s: State, l: nat): nat
    requires Shape(s) && l <= N_LAYERS
  {
    if s.count == 0 then 0 else Reach(s.model.value, l)
  }

  ghost predicate Agree(hist: seq<Column>, dense: seq<Column>, from: nat)
  {
    |hist| == |dense| && forall p | from <= p < |hist| :: hist[p] == dense[p]
  }

  lemma AgreeingTaps(hist: seq<Column>, dense: seq<Column>, from: nat, p: nat, dil: nat)
    requires Agree(hist, dense, from) && (from == 0 || from + (KERNEL - 1) * dil <= p) && p < |hist|
    ensures TapsAt(hist, p, dil) == TapsAt(dense, p, dil)
  {
    forall k | 0 <= k < KERNEL
      ensures ColumnAt(hist, p - TapOffset(k, dil)) == ColumnAt(dense, p - TapOffset(k, dil))
    {
      assert TapOffset(k, dil) <= (KERNEL - 1) * dil;
    }
  }

  /** The column layer `l` computes from a ring whose history agrees with the dense one. */
  lemma ColumnIsDense(m: Model, l: nat, xs: seq<Scan>, r: Ring, hist: seq<Column>, count: nat, from: nat)
    requires |m.layers| == N_LAYERS && l < N_LAYERS && xs != []
    requires Holds(r, hist) && Agree(hist, Act(m, l, xs), from) && (KERNEL - 1) * m.layers[l].dil < |r.slots|
    requires if from == 0 && count == |xs| then true
             else from + (KERNEL - 1) * m.layers[l].dil < |xs| <= count
    ensures ConvColumn(m.layers[l], m.channels, RingTaps(r, count, m.layers[l].dil)) == Act(m, l + 1, xs)[|xs| - 1]
  {
    RingTapsAgree(r, hist, Act(m, l, xs), count, m.layers[l].dil, from);
    NewestAct(m, l, xs);
  }

  lemma NewestAct(m: Model, l: nat, xs: seq<Scan>)
    requires |m.layers| == N_LAYERS && l < N_LAYERS && xs != []
    ensures Act(m, l + 1, xs)[|xs| - 1]
         == ConvColumn(m.layers[l], m.channels, TapsAt(Act(m, l, xs), |xs| - 1, m.layers[l].dil))
  {
  }

  lemma RingTapsAgree(r: Ring, hist: seq<Column>, dense: seq<Column>, count: nat, dil: nat, from: nat)
    requires Holds(r, hist) && Agree(hist, dense, from) && hist != [] && (KERNEL - 1) * dil < |r.slots|
    requires if from == 0 && count == |hist| then true else from + (KERNEL - 1) * dil < |hist| <= count
    ensures RingTaps(r, count, dil) == TapsAt(dense, |dense| - 1, dil)
  {
    TapsFromHistory(r, hist, count, dil);
    AgreeingTaps(hist, dense, from, |hist| - 1, dil);
  }

  /** Extending an agreeing history by one column. */
  lemma AgreeExtends(m: Model, l: nat, xs: seq<Scan>, hist: seq<Column>, col: Column, from: nat)
    requires |m.layers| == N_LAYERS && l <= N_LAYERS && xs != []
    requires Agree(hist, Act(m, l, xs[..|xs| - 1]), from)
    requires from < |xs| ==> col == Act(m, l, xs)[|xs| - 1]
    ensures Agree(hist + [col], Act(m, l, xs), from)
  {
    Causal(m, l, xs, |xs| - 1);
  }

  /** From the clean positions on, the cached columns are the dense network's. */
  lemma {:induction false} CachedIsDense(s: State, xs: seq<Scan>)
    requires Shape(s) && s.count + |xs| < U32
    ensures Agree(L0Columns(s, xs), Act(s.model.value, 1, xs), CleanFrom(s, 1))
    ensures Agree(L1Columns(s, xs), Act(s.model.value, 2, xs), CleanFrom(s, 2))
    ensures CleanFrom(s, 3) < |xs| ==> TopColumn(s, xs) == Last(s.model.value, xs)
  {
    if xs != [] {
      var n := |xs| - 1;
      var m, u, t := s.model.value, After(s, xs[..n]), After(s, xs);
      CachedIsDense(s, xs[..n]);
      RingsHold(s, xs[..n]);
      RingsHold(s, xs);
      if CleanFrom(s, 1) < |xs| {
        ColumnIsDense(m, 0, xs, t.q, Act(m, 0, xs), t.count, 0);
      }
      AgreeExtends(m, 1, xs, L0Columns(s, xs[..n]), Newest(t.l0), CleanFrom(s, 1));
      if CleanFrom(s, 2) < |xs| {
        ColumnIsDense(m, 1, xs, t.l0, L0Columns(s, xs), t.count, CleanFrom(s, 1));
      }
      AgreeExtends(m, 2, xs, L1Columns(s, xs[..n]), Newest(t.l1), CleanFrom(s, 2));
      if CleanFrom(s, 3) < |xs| {
        ColumnIsDense(m, 2, xs, t.l1, L1Columns(s, xs), t.count, CleanFrom(s, 2));
      }
    }
  }

  // ----- recovery from arbitrary contents -----

  /** One receptive field into a run, the byte is the dense network's verdict. */
  lemma Settled(s: State, xs: seq<Scan>)
    requires Shape(s) && s.rf == ReceptiveField(s.model.value)
    requires s.rf <= |xs| && s.count + |xs| < U32
    ensures var m, shot := s.model.value, After(s, xs[..|xs| - 1]).shot;
            After(s, xs).shot == Verdict(m, Last(m, xs), shot).0 && Output(s, xs) == Verdict(m, Last(m, xs), shot).1
  {
    ReachIsReceptiveField(s.model.value);
    CachedIsDense(s, xs);
    RingsHold(s, xs);
  }

  /** From any streaming state whatsoever (rings left by another model or before skipped
    * scans), one receptive field of consecutive scans later the verdict is that of the
    * dense network on those scans alone: whatever came before them cannot matter. */
  lemma SelfStabilises(s: State, xs: seq<Scan>, older: seq<Scan>)
    requires Shape(s) && s.rf == ReceptiveField(s.model.value)
    requires s.rf <= |xs| && s.count + |xs| < U32
    ensures var m, shot := s.model.value, After(s, xs[..|xs| - 1]).shot;
            Output(s, xs) == Verdict(m, Last(m, xs), shot).1 && Last(m, older + xs) == Last(m, xs)
  {
    Settled(s, xs);
    LastIsWindow(s.model.value, older + xs, xs);
  }

  // ----- the recompute engine as a function of its window -----

  datatype Recompute = Recompute(window: seq<Scan>, count: nat, shot: OneShot)

  /** `model_infer_push` then `model_infer_run`, as a function: see `PushThenRun`. */
  function PushRun(m: Model, r: Recompute, adc: Scan): (Recompute, nat)
    requires |m.layers| == N_LAYERS && |r.window| == WINDOW
  {
    var window := W.Slide(r.window, adc);
    var count := if r.count < WINDOW then r.count + 1 else WINDOW;
    if count < WINDOW then (Recompute(window, count, r.shot), 0) else
    var (shot, mask) := Verdict(m, Last(m, window), r.shot);
    (Recompute(window, count, shot), mask)
  }

  /** The recompute engine object given one scan and run. */
  method PushThenRun(e: W.WindowEngine, m: Model, adc: Scan) returns (mask: nat)
    requires e.Valid() && e.model == Some(m) && ScanOk(adc)
    modifies e, e.ring, e.cols
    ensures e.Valid() && e.model == Some(m)
    ensures (Recompute(e.Window(), e.count, e.shot), mask) == PushRun(m, old(Recompute(e.Window(), e.count, e.shot)), adc)
  {
    e.Push(adc);
    mask := e.Run();
  }

  function RecomputeAfter(m: Model, r: Recompute, xs: seq<Scan>): (r': Recompute)
    requires |m.layers| == N_LAYERS && |r.window| == WINDOW
    ensures |r'.window| == WINDOW
  {
    if xs == [] then r else PushRun(m, RecomputeAfter(m, r, xs[..|xs| - 1]), xs[|xs| - 1]).0
  }

  function RecomputeOutput(m: Model, r: Recompute, xs: seq<Scan>): nat
    requires |m.layers| == N_LAYERS && |r.window| == WINDOW && xs != []
  {
    PushRun(m, RecomputeAfter(m, r, xs[..|xs| - 1]), xs[|xs| - 1]).1
  }

  lemma {:induction false} CountSaturates(m: Model, r: Recompute, xs: seq<Scan>)
    requires |m.layers| == N_LAYERS && |r.window| == WINDOW && r.count <= WINDOW
    ensures RecomputeAfter(m, r, xs).count == if r.count + |xs| < WINDOW then r.count + |xs| else WINDOW
  {
    if xs != [] {
      CountSaturates(m, r, xs[..|xs| - 1]);
    }
  }

  /** The window ends with the last scans, as far back as they go. */
  ghost predicate Trails(window: seq<Scan>, xs: seq<Scan>)
  {
    forall i | 0 <= i < |window| && |window| - i <= |xs| :: window[i] == xs[|xs| - |window| + i]
  }

  lemma SlideTrails(window: seq<Scan>, xs: seq<Scan>, adc: Scan)
    requires |window| == WINDOW && Trails(window, xs)
    ensures Trails(W.Slide(window, adc), xs + [adc])
  {
    var next, longer, n := W.Slide(window, adc), xs + [adc], |window|;
    forall i | 0 <= i < |next| && |next| - i <= |longer|
      ensures next[i] == longer[|longer| - |next| + i]
    {
      if i < n - 1 {
        var k := i + 1;
        assert next[i] == window[k];
      }
    }
  }

  lemma {:induction false} WindowTrails(m: Model, r: Recompute, xs: seq<Scan>)
    requires |m.layers| == N_LAYERS && |r.window| == WINDOW
    ensures Trails(RecomputeAfter(m, r, xs).window, xs)
  {
    if xs != [] {
      var front := xs[..|xs| - 1];
      WindowTrails(m, r, front);
      SlideTrails(RecomputeAfter(m, r, front).window, front, xs[|xs| - 1]);
      assert front + [xs[|xs| - 1]] == xs;
    }
  }

  lemma TailIsUnique(held: seq<Scan>, xs: seq<Scan>, window: seq<Scan>)
    requires |held| == |window| && Trails(held, xs) && IsTail(window, xs)
    ensures held == window
  {
  }

  lemma WindowIsLast85(m: Model, r: Recompute, xs: seq<Scan>, window: seq<Scan>)
    requires |m.layers| == N_LAYERS && |r.window| == WINDOW && |xs| >= WINDOW
    requires |window| == WINDOW && IsTail(window, xs)
    ensures RecomputeAfter(m, r, xs).window == window
  {
    WindowTrails(m, r, xs);
    TailIsUnique(RecomputeAfter(m, r, xs).window, xs, window);
  }

  /** Once 85 scans are in, the recompute engine judges exactly the last 85. */
  lemma RecomputeVerdict(m: Model, r: Recompute, xs: seq<Scan>, window: seq<Scan>)
    requires |m.layers| == 3 && |r.window| == 85 && r.count <= 85 && |xs| >= 85
    requires |window| == 85 && IsTail(window, xs)
    ensures var shot := RecomputeAfter(m, r, xs[..|xs| - 1]).shot;
            RecomputeAfter(m, r, xs).shot == Verdict(m, Last(m, window), shot).0 &&
            RecomputeOutput(m, r, xs) == Verdict(m, Last(m, window), shot).1
  {
    WindowIsLast85(m, r, xs, window);
    CountSaturates(m, r, xs[..|xs| - 1]);
  }

  /** Before that it returns 0. */
  lemma RecomputeWaits(m: Model, r: Recompute, xs: seq<Scan>)
    requires |m.layers| == 3 && |r.window| == 85 && r.count == 0 && 1 <= |xs| < 85
    ensures RecomputeOutput(m, r, xs) == 0 && RecomputeAfter(m, r, xs).shot == RecomputeAfter(m, r, xs[..|xs| - 1]).shot
  {
    CountSaturates(m, r, xs[..|xs| - 1]);
  }

  // ----- refinement -----

  lemma {:induction false} FretMaskRange(m: Model, last: Column, n: nat)
    ensures FretMask(m, last, n) < Pow2(n)
  {
    if n > 0 { FretMaskRange(m, last, n - 1); }
  }

  lemma FretBits(m: Model, last: Column, shot: OneShot)
    ensures Verdict(m, last, shot).1 % STRUM_BIT == FretMask(m, last, STRUM_OUT)
  {
    FretMaskRange(m, last, STRUM_OUT);
    assert Pow2(STRUM_OUT) == STRUM_BIT;
  }

  /** Whatever the two engines' histories, 85 scans later their fret bits agree, and so
    * does the whole byte if their one-shot timers did. */
  lemma EnginesAgreeAfterWindow(s: State, r: Recompute, xs: seq<Scan>, window: seq<Scan>)
    requires Shape(s) && s.rf == ReceptiveField(s.model.value) <= WINDOW
    requires |r.window| == WINDOW && r.count <= WINDOW
    requires |window| == WINDOW && IsTail(window, xs) && s.count + |xs| < U32
    ensures Output(s, xs) % STRUM_BIT == RecomputeOutput(s.model.value, r, xs) % STRUM_BIT
    ensures After(s, xs[..|xs| - 1]).shot == RecomputeAfter(s.model.value, r, xs[..|xs| - 1]).shot ==>
              Output(s, xs) == RecomputeOutput(s.model.value, r, xs) &&
              After(s, xs).shot == RecomputeAfter(s.model.value, r, xs).shot
  {
    var m := s.model.value;
    Settled(s, xs);
    RecomputeVerdict(m, r, xs, window);
    LastIsWindow(m, xs, window);
    FretBits(m, Last(m, xs), After(s, xs[..|xs| - 1]).shot);
    FretBits(m, Last(m, xs), RecomputeAfter(m, r, xs[..|xs| - 1]).shot);
  }

  /** Whole-run refinement: from initialisation, with a model whose receptive field is the
    * window, the streaming engine returns the recompute engine's byte at every step. */
  lemma {:induction false} StreamRefinesRecompute(s: State, r: Recompute, xs: seq<Scan>)
    requires Shape(s) && s.count == 0 && s.rf == ReceptiveField(s.model.value) == WINDOW
    requires |r.window| == WINDOW && r.count == 0 && s.shot == r.shot && |xs| < U32
    ensures After(s, xs).shot == RecomputeAfter(s.model.value, r, xs).shot
    ensures xs != [] ==> Output(s, xs) == RecomputeOutput(s.model.value, r, xs)
  {
    if xs != [] {
      StreamRefinesRecompute(s, r, xs[..|xs| - 1]);
      if |xs| >= WINDOW {
        EnginesAgreeAfterWindow(s, r, xs, xs[|xs| - WINDOW..]);
      } else {
        RingsHold(s, xs);
        CountSaturates(s.model.value, r, xs[..|xs| - 1]);
        CountSaturates(s.model.value, r, xs);
      }
    }
  }

  // ----- a receptive field shorter than the window -----

  /** With a shorter receptive field the streaming engine already gives its verdict while the
    * recompute engine still waits for its window. */
  lemma ShorterFieldSpeaksEarlier(s: State, r: Recompute, xs: seq<Scan>)
    requires Shape(s) && s.count == 0 && s.rf == ReceptiveField(s.model.value) <= |xs| < WINDOW
    requires |r.window| == WINDOW && r.count == 0
    ensures RecomputeOutput(s.model.value, r, xs) == 0
    ensures var m, shot := s.model.value, After(s, xs[..|xs| - 1]).shot;
            Output(s, xs) == Verdict(m, Last(m, xs), shot).1 && After(s, xs).shot == Verdict(m, Last(m, xs), shot).0
  {
    Settled(s, xs);
    CountSaturates(s.model.value, r, xs[..|xs| - 1]);
    CountSaturates(s.model.value, r, xs);
  }

  /** No output bit is set, the raw strum included. */
  ghost predicate Silent(m: Model, last: Column)
  {
    forall o: nat | o <= STRUM_OUT :: !OutputBit(m, last, o)
  }

  /** The network is silent on every prefix that fills the receptive field but not the window. */
  ghost predicate QuietWarmUp(m: Model, xs: seq<Scan>)
    requires |m.layers| == N_LAYERS
  {
    xs == [] ||
    (QuietWarmUp(m, xs[..|xs| - 1]) && (ReceptiveField(m) <= |xs| < WINDOW ==> Silent(m, Last(m, xs))))
  }

  /** Both engines return the same byte at every step of the run. */
  ghost predicate SameBytes(s: State, r: Recompute, xs: seq<Scan>)
    requires Shape(s) && |r.window| == WINDOW
  {
    xs == [] || (SameBytes(s, r, xs[..|xs| - 1]) && Output(s, xs) == RecomputeOutput(s.model.value, r, xs))
  }

  /** No pulse has been started yet. */
  predicate Untriggered(shot: OneShot) { !shot.prev && shot.holdUntil == 0 && shot.blockUntil == 0 }

  /** `a` deadline and its counterpart on a clock `d` ticks behind. */
  predicate Later(a: nat, b: nat, d: nat) { a == b + d || (a == 0 && b == 0) }

  /** The same one-shot on two clocks. */
  predicate ClocksApart(a: OneShot, b: OneShot)
  {
    a.tick >= b.tick && a.prev == b.prev &&
    Later(a.holdUntil, b.holdUntil, a.tick - b.tick) && Later(a.blockUntil, b.blockUntil, a.tick - b.tick)
  }

  lemma NoWrap(x: nat)
    requires x < U32
    ensures Wrap32(x) == x
  {
    SmallMod(x, U32);
  }

  /** `Tick` on a clock that does not wrap. */
  function PlainTick(s: OneShot, raw: bool, hold: nat, refractory: nat): (OneShot, bool)
  {
    if hold > 0 then
      var fire := raw && !s.prev && s.tick >= s.blockUntil;
      var holdUntil := if fire then s.tick + hold else s.holdUntil;
      var blockUntil := if fire then s.tick + hold + refractory else s.blockUntil;
      (OneShot(s.tick + 1, holdUntil, blockUntil, raw), s.tick < holdUntil)
    else
      (s, raw)
  }

  lemma TickIsPlain(s: OneShot, raw: bool, hold: nat, refractory: nat)
    requires s.tick + hold + refractory + 1 < U32
    ensures Tick(s, raw, hold, refractory) == PlainTick(s, raw, hold, refractory)
  {
    NoWrap(s.tick + 1);
    NoWrap(s.tick + hold);
    NoWrap(s.tick + hold + refractory);
  }

  lemma PlainTogether(a: OneShot, b: OneShot, raw: bool, hold: nat, refractory: nat)
    requires ClocksApart(a, b)
    ensures PlainTick(a, raw, hold, refractory).1 == PlainTick(b, raw, hold, refractory).1
    ensures ClocksApart(PlainTick(a, raw, hold, refractory).0, PlainTick(b, raw, hold, refractory).0)
  {
  }

  lemma TickTogether(a: OneShot, b: OneShot, raw: bool, hold: nat, refractory: nat)
    requires ClocksApart(a, b) && a.tick + hold + refractory + 1 < U32
    ensures Tick(a, raw, hold, refractory).1 == Tick(b, raw, hold, refractory).1
    ensures ClocksApart(Tick(a, raw, hold, refractory).0, Tick(b, raw, hold, refractory).0)
    ensures Tick(a, raw, hold, refractory).0.tick <= a.tick + 1
  {
    TickIsPlain(a, raw, hold, refractory);
    TickIsPlain(b, raw, hold, refractory);
    PlainTogether(a, b, raw, hold, refractory);
  }

  /** The first raw strum of an idle one-shot is always heard. */
  lemma FirstStrumHeard(shot: OneShot, raw: bool, hold: nat, refractory: nat)
    requires Untriggered(shot) && shot.tick + hold + refractory + 1 < U32
    ensures Tick(shot, raw, hold, refractory).1 == raw
    ensures !raw ==> Untriggered(Tick(shot, raw, hold, refractory).0)
    ensures shot.tick <= Tick(shot, raw, hold, refractory).0.tick <= shot.tick + 1
  {
    TickIsPlain(shot, raw, hold, refractory);
  }

  lemma {:induction false} NoFrets(m: Model, last: Column, n: nat)
    ensures FretMask(m, last, n) == 0 <==> forall o: nat | o < n :: !OutputBit(m, last, o)
  {
    if n > 0 {
      NoFrets(m, last, n - 1);
    }
  }

  /** From an idle one-shot the byte is 0 exactly when the network is silent. */
  lemma SilentVerdict(m: Model, last: Column, shot: OneShot)
    requires Untriggered(shot) && shot.tick + m.strumHold + m.strumRefractory + 1 < U32
    ensures Verdict(m, last, shot).1 == 0 <==> Silent(m, last)
    ensures Silent(m, last) ==> Untriggered(Verdict(m, last, shot).0) && Verdict(m, last, shot).0.tick <= shot.tick + 1
    ensures Silent(m, last) ==> Verdict(m, last, shot).0.tick >= shot.tick
  {
    NoFrets(m, last, STRUM_OUT);
    FirstStrumHeard(shot, OutputBit(m, last, STRUM_OUT), m.strumHold, m.strumRefractory);
  }

  /** The timers of the two engines during and after a quiet warm-up. */
  ghost predicate TimersApart(s: State, r: Recompute, xs: seq<Scan>)
    requires Shape(s) && |r.window| == WINDOW
  {
    var a, b := After(s, xs).shot, RecomputeAfter(s.model.value, r, xs).shot;
    && ClocksApart(a, b) && a.tick <= |xs|
    && (|xs| < WINDOW ==> Untriggered(a) && b == r.shot)
  }

  /** Once the window is full both engines judge the same column, each with its own timers. */
  lemma BothJudge(s: State, r: Recompute, xs: seq<Scan>)
    requires Shape(s) && s.count == 0 && s.rf == ReceptiveField(s.model.value) <= WINDOW
    requires |r.window| == WINDOW && r.count == 0 && WINDOW <= |xs| < U32
    ensures var m, shot := s.model.value, After(s, xs[..|xs| - 1]).shot;
      After(s, xs).shot == Verdict(m, Last(m, xs), shot).0 && Output(s, xs) == Verdict(m, Last(m, xs), shot).1
    ensures var m, shot := s.model.value, RecomputeAfter(s.model.value, r, xs[..|xs| - 1]).shot;
      RecomputeAfter(m, r, xs).shot == Verdict(m, Last(m, xs), shot).0 &&
      RecomputeOutput(m, r, xs) == Verdict(m, Last(m, xs), shot).1
  {
    var m, window := s.model.value, xs[|xs| - WINDOW..];
    Settled(s, xs);
    RecomputeVerdict(m, r, xs, window);
    LastIsWindow(m, xs, window);
  }

  lemma VerdictsTogether(m: Model, last: Column, a: OneShot, b: OneShot)
    requires ClocksApart(a, b) && a.tick + m.strumHold + m.strumRefractory + 1 < U32
    ensures Verdict(m, last, a).1 == Verdict(m, last, b).1 && ClocksApart(Verdict(m, last, a).0, Verdict(m, last, b).0)
    ensures Verdict(m, last, a).0.tick <= a.tick + 1
  {
    TickTogether(a, b, OutputBit(m, last, STRUM_OUT), m.strumHold, m.strumRefractory);
  }

  /** One scan later, once the window is full. */
  lemma FullWindowStep(s: State, r: Recompute, xs: seq<Scan>)
    requires Shape(s) && s.count == 0 && s.rf == ReceptiveField(s.model.value) <= WINDOW && ModelOk(s.model.value)
    requires |r.window| == WINDOW && r.count == 0 && WINDOW <= |xs| && |xs| + 512 < U32
    requires TimersApart(s, r, xs[..|xs| - 1])
    ensures Output(s, xs) == RecomputeOutput(s.model.value, r, xs) && TimersApart(s, r, xs)
  {
    var m, front := s.model.value, xs[..|xs| - 1];
    BothJudge(s, r, xs);
    VerdictsTogether(m, Last(m, xs), After(s, front).shot, RecomputeAfter(m, r, front).shot);
  }

  /** One scan later during the warm-up. */
  lemma WarmUpStep(s: State, r: Recompute, xs: seq<Scan>)
    requires Shape(s) && s.count == 0 && s.rf == ReceptiveField(s.model.value) && ModelOk(s.model.value)
    requires |r.window| == WINDOW && r.count == 0 && r.shot == IDLE && 0 < |xs| < WINDOW
    requires TimersApart(s, r, xs[..|xs| - 1])
    ensures var m := s.model.value;
      Output(s, xs) == RecomputeOutput(m, r, xs) <==> |xs| < s.rf || Silent(m, Last(m, xs))
    ensures |xs| < s.rf || Silent(s.model.value, Last(s.model.value, xs)) ==> TimersApart(s, r, xs)
  {
    var m, front := s.model.value, xs[..|xs| - 1];
    CountSaturates(m, r, front);
    if |xs| < s.rf {
      RingsHold(s, xs);
    } else {
      ShorterFieldSpeaksEarlier(s, r, xs);
      SilentVerdict(m, Last(m, xs), After(s, front).shot);
    }
  }

  lemma {:induction false} AgreementStep(s: State, r: Recompute, xs: seq<Scan>)
    requires Shape(s) && s.count == 0 && s.rf == ReceptiveField(s.model.value) <= WINDOW && ModelOk(s.model.value)
    requires |r.window| == WINDOW && r.count == 0 && s.shot == r.shot == IDLE && |xs| + 512 < U32
    ensures SameBytes(s, r, xs) <==> QuietWarmUp(s.model.value, xs)
    ensures QuietWarmUp(s.model.value, xs) ==> TimersApart(s, r, xs)
  {
    if xs != [] {
      AgreementStep(s, r, xs[..|xs| - 1]);
      if QuietWarmUp(s.model.value, xs[..|xs| - 1]) {
        if |xs| < WINDOW { WarmUpStep(s, r, xs); } else { FullWindowStep(s, r, xs); }
      }
    }
  }

  /** Exactly when the engines agree: from initialisation, for any receptive field up to the window,
    * they return the same byte at every step of a run if and only if the network is silent on every
    * prefix that fills the receptive field but not yet the window. With a full-window receptive field
    * there is no such prefix. */
  lemma EnginesAgreeExactly(s: State, r: Recompute, xs: seq<Scan>)
    requires Shape(s) && s.count == 0 && s.rf == ReceptiveField(s.model.value) <= WINDOW && ModelOk(s.model.value)
    requires |r.window| == WINDOW && r.count == 0 && s.shot == r.shot == IDLE && |xs| + 512 < U32
    ensures SameBytes(s, r, xs) <==> QuietWarmUp(s.model.value, xs)
  {
    AgreementStep(s, r, xs);
  }

  lemma {:induction false} ZeroHead(m: Model, last: Column, o: nat, i: nat)
    requires forall j | 0 <= j < |m.headW| :: m.headW[j] == 0
    ensures HeadSum(m, last, o, i) == 0
  {
    if i > 0 {
      ZeroHead(m, last, o, i - 1);
      assert At(m.headW, o * m.channels + i - 1) == 0;
    }
  }

  /** A head without weights whose thresholds are 0 sets every bit. */
  lemma AllBitsSet(m: Model, last: Column, shot: OneShot)
    requires forall j | 0 <= j < |m.headW| :: m.headW[j] == 0
    requires (forall o: nat :: At(m.headB, o) >= At(m.headTq, o)) && m.strumHold == 0
    ensures Verdict(m, last, shot).1 == 63
  {
    forall o: nat
      ensures OutputBit(m, last, o)
    {
      ZeroHead(m, last, o, m.channels);
    }
    FullMask(m, last, STRUM_OUT);
    assert Pow2(STRUM_OUT) == STRUM_BIT;
  }

  lemma {:induction false} FullMask(m: Model, last: Column, n: nat)
    requires forall o: nat :: OutputBit(m, last, o)
    ensures FretMask(m, last, n) == Pow2(n) - 1
  {
    if n > 0 {
      FullMask(m, last, n - 1);
    }
  }

  /** One channel, dilations 1, all weights, biases and thresholds 0, no hold. */
  function PlainModel(): (m: Model)
    ensures ModelOk(m) && ReceptiveField(m) == 13 && m.strumHold == 0
    ensures (forall j | 0 <= j < |m.headW| :: m.headW[j] == 0) && forall o: nat :: At(m.headB, o) >= At(m.headTq, o)
  {
    var inner := Layer(seq(KERNEL, _ => 0), [0], 1, 1, 0, 1);
    Model(1, seq(N_IN, _ => 0), seq(N_IN, _ => 0), 1,
          [Layer(seq(N_IN * KERNEL, _ => 0), [0], N_IN, 1, 0, 1), inner, inner],
          seq(N_OUT, _ => 0), seq(N_OUT, _ => 0), seq(N_OUT, _ => 0), 0, 0)
  }

  /** The condition is needed: with that model, from initialisation, the thirteenth scan makes the
    * streaming engine return 63 and the recompute engine 0. */
  lemma EnginesDisagree(scan: Scan) returns (s: State, r: Recompute, xs: seq<Scan>)
    ensures Shape(s) && s.count == 0 && s.rf == ReceptiveField(s.model.value) < WINDOW && ModelOk(s.model.value)
    ensures |r.window| == WINDOW && r.count == 0 && s.shot == r.shot == IDLE
    ensures xs == seq(13, _ => scan) && Output(s, xs) == 63 && RecomputeOutput(s.model.value, r, xs) == 0
  {
    var m := PlainModel();
    s := State(Some(m), 13, 0, Ring(seq(Q_RING, _ => []), 0), Ring(seq(L0_RING, _ => []), 0), Ring(seq(L1_RING, _ => []), 0), IDLE);
    r := Recompute(seq(WINDOW, _ => []), 0, IDLE);
    xs := seq(13, _ => scan);
    ShorterFieldSpeaksEarlier(s, r, xs);
    AllBitsSet(m, Last(m, xs), After(s, xs[..|xs| - 1]).shot);
  }

  // ----- against the host: int8 reference per window, then `monostable` -----

  /** The raw strum bit of every row from 84 on. */
  function RawStrums(m: Model, xs: seq<Scan>): (r: seq<bool>)
    requires |m.layers| == N_LAYERS
  {
    seq(Rows(xs), j requires 0 <= j < Rows(xs) => OutputBit(m, Last(m, xs[..j + WINDOW]), STRUM_OUT))
  }

  /** How many full windows `xs` holds. */
  function Rows(xs: seq<Scan>): nat { if |xs| < WINDOW then 0 else |xs| - WINDOW + 1 }

  /** Row `j` of the raw strums is the reference's strum bit for window `j`. */
  lemma RawStrumIsWindowed(m: Model, xs: seq<Scan>, j: nat, window: seq<Scan>)
    requires |m.layers| == N_LAYERS && ReceptiveField(m) <= WINDOW
    requires j < Rows(xs) && window == xs[j..j + WINDOW]
    ensures RawStrums(m, xs)[j] == OutputBit(m, Last(m, window), STRUM_OUT)
  {
    LastIsWindow(m, xs[..j + WINDOW], window);
  }

  lemma RawStrumsGrow(m: Model, xs: seq<Scan>)
    requires |m.layers| == N_LAYERS && |xs| >= WINDOW
    ensures var raw := RawStrums(m, xs);
            raw[..|raw| - 1] == RawStrums(m, xs[..|xs| - 1]) &&
            raw[|raw| - 1] == OutputBit(m, Last(m, xs), STRUM_OUT)
  {
    var front, raw := xs[..|xs| - 1], RawStrums(m, xs);
    forall j | 0 <= j < |raw| - 1
      ensures raw[j] == RawStrums(m, front)[j]
    {
      assert xs[..j + WINDOW] == front[..j + WINDOW];
    }
    assert xs[..|raw| - 1 + WINDOW] == xs;
  }

  lemma {:induction false} TimersFollowRawStrums(s: State, xs: seq<Scan>)
    requires Shape(s) && s.count == 0 && s.shot == IDLE && |xs| < U32
    requires s.rf == ReceptiveField(s.model.value) == WINDOW
    ensures After(s, xs).shot
         == StrumPulse.After(RawStrums(s.model.value, xs), s.model.value.strumHold, s.model.value.strumRefractory)
  {
    if |xs| >= WINDOW {
      TimersFollowRawStrums(s, xs[..|xs| - 1]);
      Settled(s, xs);
      RawStrumsGrow(s.model.value, xs);
    } else if xs != [] {
      TimersFollowRawStrums(s, xs[..|xs| - 1]);
      RingsHold(s, xs);
    }
  }

  /** End to end: from row 84 on, the streamed byte is the dense int8 verdict on the last
    * 85 scans, with the strum bit passed through `monostable` over all rows so far. */
  lemma StreamMatchesHost(s: State, xs: seq<Scan>, window: seq<Scan>)
    requires Shape(s) && s.count == 0 && s.shot == IDLE
    requires s.rf == ReceptiveField(s.model.value) == WINDOW == |window| && IsTail(window, xs)
    requires ModelOk(s.model.value) && |xs| + 512 < U32
    ensures var m, row := s.model.value, |xs| - WINDOW;
            var strum := if m.strumHold > 0 then InPulse(RawStrums(m, xs), m.strumHold, m.strumRefractory, row)
                         else RawStrums(m, xs)[row];
            Output(s, xs) == FretMask(m, Last(m, window), STRUM_OUT) + if strum then STRUM_BIT else 0
  {
    var m, raw := s.model.value, RawStrums(s.model.value, xs);
    Settled(s, xs);
    LastIsWindow(m, xs, window);
    TimersFollowRawStrums(s, xs[..|xs| - 1]);
    RawStrumsGrow(m, xs);
    if m.strumHold > 0 {
      OneShotMeaning(raw, m.strumHold, m.strumRefractory, |xs| - WINDOW);
    }
  }
}
