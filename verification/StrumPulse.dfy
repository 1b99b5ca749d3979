/** The strum one-shot: as the per-sample timers of the firmware
  * (model_infer.c, model_infer_stream.c), and as `monostable` over a whole
  * list (metrics.py). */
module StrumPulse {
  import opened Words

  /** The firmware's timers `s_tick`, `s_hold_until`, `s_block_until`, `s_prev_strum`. */
  datatype OneShot = OneShot(tick: nat, holdUntil: nat, blockUntil: nat, prev: bool)

  const IDLE := OneShot(0, 0, 0, false)

  /** One sample through the firmware's one-shot; `hold == 0` passes the bit through. */
  function Tick(s: OneShot, raw: bool, hold: nat, refractory: nat): (OneShot, bool)
  {
    if hold > 0 then
      var fire := raw && !s.prev && s.tick >= s.blockUntil;
      var holdUntil := if fire then Wrap32(s.tick + hold) else s.holdUntil;
      var blockUntil := if fire then Wrap32(s.tick + hold + refractory) else s.blockUntil;
      (OneShot(Wrap32(s.tick + 1), holdUntil, blockUntil, raw), s.tick < holdUntil)
    else
      (s, raw)
  }

  /** The timers after a whole list of samples. */
  function After(xs: seq<bool>, hold: nat, refractory: nat): OneShot
  {
    if xs == [] then IDLE
    else Tick(After(xs[..|xs| - 1], hold, refractory), xs[|xs| - 1], hold, refractory).0
  }

  /** The bit the firmware emits for sample `i`. */
  function Emitted(xs: seq<bool>, hold: nat, refractory: nat, i: nat): bool
    requires i < |xs|
  {
    Tick(After(xs[..i], hold, refractory), xs[i], hold, refractory).1
  }

  // ----- what the one-shot is for, with no timers in it -----

  predicate RisingEdge(xs: seq<bool>, i: nat)
    requires i < |xs|
  {
    xs[i] && (i == 0 || !xs[i - 1])
  }

  /** Sample `i` starts a pulse: a rising edge that no earlier pulse start blocks. */
  predicate Fires(xs: seq<bool>, hold: nat, refractory: nat, i: nat)
    requires i < |xs|
    decreases i
  {
    RisingEdge(xs, i) &&
    forall t: nat | t < i :: Fires(xs, hold, refractory, t) ==> i >= t + hold + refractory
  }

  /** The output is high exactly within `hold` samples of a pulse start. */
  ghost predicate InPulse(xs: seq<bool>, hold: nat, refractory: nat, i: nat)
    requires i < |xs|
  {
    exists t: nat :: t <= i < t + hold && Fires(xs, hold, refractory, t)
  }

  lemma {:induction false} FiresPrefix(xs: seq<bool>, n: nat, hold: nat, refractory: nat, i: nat)
    requires i < n <= |xs|
    ensures Fires(xs[..n], hold, refractory, i) == Fires(xs, hold, refractory, i)
    decreases i
  {
    forall t: nat | t < i
      ensures Fires(xs[..n], hold, refractory, t) == Fires(xs, hold, refractory, t)
    {
      FiresPrefix(xs, n, hold, refractory, t);
    }
  }

  /** The most recent pulse start before sample `n`, if any. */
  function LastFire(xs: seq<bool>, hold: nat, refractory: nat, n: nat): (r: int)
    requires n <= |xs|
    ensures -1 <= r < n
    ensures r >= 0 ==> Fires(xs, hold, refractory, r)
    ensures forall t: nat | r < t < n :: !Fires(xs, hold, refractory, t)
  {
    if n == 0 then -1
    else if Fires(xs, hold, refractory, n - 1) then n - 1
    else LastFire(xs, hold, refractory, n - 1)
  }

  /** The timers record nothing but the last pulse start (and the tick). */
  ghost predicate TimersSay(s: OneShot, xs: seq<bool>, hold: nat, refractory: nat)
  {
    var t := LastFire(xs, hold, refractory, |xs|);
    s == OneShot(|xs|,
                 if t < 0 then 0 else t + hold,
                 if t < 0 then 0 else t + hold + refractory,
                 xs != [] && xs[|xs| - 1])
  }

  /** Only the last pulse start can block a later edge, since starts are spaced out. */
  lemma {:induction false} BlockedByLast(xs: seq<bool>, hold: nat, refractory: nat, i: nat)
    requires i < |xs|
    ensures var t := LastFire(xs, hold, refractory, i);
            Fires(xs, hold, refractory, i) <==>
              RisingEdge(xs, i) && (t >= 0 ==> i >= t + hold + refractory)
  {
    var t := LastFire(xs, hold, refractory, i);
    if t >= 0 && RisingEdge(xs, i) && i >= t + hold + refractory {
      forall u: nat | u < i && Fires(xs, hold, refractory, u)
        ensures i >= u + hold + refractory
      {
        assert u <= t;
      }
    }
  }

  lemma {:induction false} LastFirePrefix(xs: seq<bool>, m: nat, hold: nat, refractory: nat, n: nat)
    requires n <= m <= |xs|
    ensures LastFire(xs[..m], hold, refractory, n) == LastFire(xs, hold, refractory, n)
    decreases n
  {
    if n > 0 {
      FiresPrefix(xs, m, hold, refractory, n - 1);
      LastFirePrefix(xs, m, hold, refractory, n - 1);
    }
  }

  lemma {:induction false} TimersInvariant(xs: seq<bool>, hold: nat, refractory: nat)
    requires hold > 0 && |xs| + hold + refractory < U32
    ensures TimersSay(After(xs, hold, refractory), xs, hold, refractory)
  {
    if xs != [] {
      var n := |xs| - 1;
      TimersInvariant(xs[..n], hold, refractory);
      LastFirePrefix(xs, n, hold, refractory, n);
      BlockedByLast(xs, hold, refractory, n);
      assert n > 0 ==> xs[..n][n - 1] == xs[n - 1];
    }
  }

  /** The firmware timers emit exactly the `hold`-sample windows after each pulse
    * start, for every input list short of the 32-bit tick wrap. */
  lemma OneShotMeaning(xs: seq<bool>, hold: nat, refractory: nat, i: nat)
    requires i < |xs| && hold > 0 && |xs| + hold + refractory < U32
    ensures Emitted(xs, hold, refractory, i) <==> InPulse(xs, hold, refractory, i)
  {
    TimersInvariant(xs[..i], hold, refractory);
    LastFirePrefix(xs, i, hold, refractory, i);
    BlockedByLast(xs, hold, refractory, i);
    var t := LastFire(xs, hold, refractory, i + 1);
    assert i > 0 ==> xs[..i][i - 1] == xs[i - 1];
    if InPulse(xs, hold, refractory, i) {
      var u: nat :| u <= i < u + hold && Fires(xs, hold, refractory, u);
      assert u <= t;
    }
    if t >= 0 && i < t + hold {
      assert Fires(xs, hold, refractory, t);
      assert InPulse(xs, hold, refractory, i);
    }
  }

  /** Without a hold time the bit passes straight through. */
  lemma NoHoldPassesThrough(xs: seq<bool>, refractory: nat, i: nat)
    requires i < |xs|
    ensures Emitted(xs, 0, refractory, i) == xs[i] && After(xs, 0, refractory) == IDLE
  {
    StaysIdle(xs, refractory);
  }

  lemma {:induction false} StaysIdle(xs: seq<bool>, refractory: nat)
    ensures After(xs, 0, refractory) == IDLE
  {
    if xs != [] { StaysIdle(xs[..|xs| - 1], refractory); }
  }

  /** Two pulse starts are at least `hold + refractory` samples apart. */
  lemma StartsSpaced(xs: seq<bool>, hold: nat, refractory: nat, i: nat, j: nat)
    requires i < j < |xs|
    requires Fires(xs, hold, refractory, i) && Fires(xs, hold, refractory, j)
    ensures j - i >= hold + refractory
  {
  }

  /** Within a pulse nothing else starts. */
  lemma NoStartsWhileBlocked(xs: seq<bool>, hold: nat, refractory: nat, i: nat, e: nat)
    requires i < |xs| && Fires(xs, hold, refractory, i) && e <= i + hold + refractory && e <= |xs|
    ensures forall t: nat | i < t < e :: !Fires(xs, hold, refractory, t)
  {
  }

  /** An input held high from `i` to `j` starts at most the one pulse at `i`. */
  lemma SustainedFiresOnce(xs: seq<bool>, hold: nat, refractory: nat, i: nat, j: nat)
    requires i < j < |xs| && forall k | i <= k <= j :: xs[k]
    ensures forall k: nat | i < k <= j :: !Fires(xs, hold, refractory, k)
  {
  }

  /** Samples `a..b` are a run of ones that cannot be extended either way. */
  ghost predicate MaximalRun(ys: seq<bool>, a: nat, b: nat)
  {
    a < b <= |ys| &&
    (forall k | a <= k < b :: ys[k]) &&
    (a == 0 || !ys[a - 1]) &&
    (b == |ys| || !ys[b])
  }

  ghost predicate IsOneShotOutput(ys: seq<bool>, xs: seq<bool>, hold: nat, refractory: nat)
  {
    |ys| == |xs| && forall i: nat | i < |xs| :: ys[i] == InPulse(xs, hold, refractory, i)
  }

  lemma StartRaisesOutput(ys: seq<bool>, xs: seq<bool>, hold: nat, refractory: nat, t: nat)
    requires IsOneShotOutput(ys, xs, hold, refractory) && t < |xs| && Fires(xs, hold, refractory, t)
    ensures forall k: nat | t <= k < t + hold && k < |ys| :: ys[k]
  {
    forall k: nat | t <= k < t + hold && k < |ys|
      ensures ys[k]
    {
      assert InPulse(xs, hold, refractory, k);
    }
  }

  /** A maximal output run begins at a pulse start. */
  lemma RunBeginsAtStart(ys: seq<bool>, xs: seq<bool>, hold: nat, refractory: nat, a: nat, b: nat)
    requires IsOneShotOutput(ys, xs, hold, refractory) && MaximalRun(ys, a, b)
    ensures Fires(xs, hold, refractory, a)
  {
    assert InPulse(xs, hold, refractory, a);
    var t: nat :| t <= a < t + hold && Fires(xs, hold, refractory, t);
    StartRaisesOutput(ys, xs, hold, refractory, t);
    assert t == a;
  }

  /** An untruncated output pulse lasts exactly `hold` samples unless the next pulse
    * starts on the very sample it ends, which only `refractory == 0` allows. */
  lemma PulseLength(ys: seq<bool>, xs: seq<bool>, hold: nat, refractory: nat, a: nat, b: nat)
    requires hold > 0 && IsOneShotOutput(ys, xs, hold, refractory)
    requires MaximalRun(ys, a, b) && a + hold < |xs|
    ensures b - a == hold <==> !Fires(xs, hold, refractory, a + hold)
    ensures Fires(xs, hold, refractory, a + hold) ==> refractory == 0
  {
    RunBeginsAtStart(ys, xs, hold, refractory, a, b);
    StartRaisesOutput(ys, xs, hold, refractory, a);
    assert b >= a + hold;
    var e := a + hold;
    if Fires(xs, hold, refractory, e) {
      StartsSpaced(xs, hold, refractory, a, e);
      assert InPulse(xs, hold, refractory, e);
    } else {
      NoStartsWhileBlocked(xs, hold, refractory, a, e);
      assert !InPulse(xs, hold, refractory, e);
    }
  }

  /** With a refractory sample every pulse not cut off by the end lasts exactly `hold`. */
  lemma PulseExactlyHold(ys: seq<bool>, xs: seq<bool>, hold: nat, refractory: nat, a: nat, b: nat)
    requires hold > 0 && refractory >= 1 && IsOneShotOutput(ys, xs, hold, refractory)
    requires MaximalRun(ys, a, b) && b < |ys|
    ensures b - a == hold
  {
    RunBeginsAtStart(ys, xs, hold, refractory, a, b);
    StartRaisesOutput(ys, xs, hold, refractory, a);
    PulseLength(ys, xs, hold, refractory, a, b);
  }

  /** Without one, two edges a pulse apart fuse into a single pulse of twice the length. */
  lemma FusedPulses()
    ensures var xs := [true, false, true, false, false];
            Fires(xs, 2, 0, 0) && Fires(xs, 2, 0, 2) &&
            (forall i: nat | i < 4 :: InPulse(xs, 2, 0, i)) && !InPulse(xs, 2, 0, 4)
  {
    var xs := [true, false, true, false, false];
    assert Fires(xs, 2, 0, 0);
    assert !Fires(xs, 2, 0, 1);
    assert Fires(xs, 2, 0, 2);
    assert !Fires(xs, 2, 0, 3) && !Fires(xs, 2, 0, 4);
  }

  // ----- metrics.py -----

  /** `monostable`: the same one-shot over a list, with unbounded integers. */
  method Monostable(xs: seq<bool>, hold: nat, refractory: nat) returns (out: seq<bool>)
    ensures IsOneShotOutput(out, xs, hold, refractory)
  {
    out := seq(|xs|, _ => false);
    var holdUntil := 0;
    var blockUntil := 0;
    var prev := false;
    for i := 0 to |xs|
      invariant |out| == |xs|
      invariant var t := LastFire(xs, hold, refractory, i);
                holdUntil == (if t < 0 then 0 else t + hold) &&
                blockUntil == (if t < 0 then 0 else t + hold + refractory)
      invariant prev == (i > 0 && xs[i - 1])
      invariant forall k: nat | k < i :: out[k] == InPulse(xs, hold, refractory, k)
      invariant forall k | i <= k < |xs| :: !out[k]
    {
      BlockedByLast(xs, hold, refractory, i);
      if xs[i] && !prev && i >= blockUntil {
        holdUntil := i + hold;
        blockUntil := i + hold + refractory;
      }
      ghost var t := LastFire(xs, hold, refractory, i + 1);
      if i < holdUntil {
        out := out[i := true];
        assert Fires(xs, hold, refractory, t);
        assert InPulse(xs, hold, refractory, i);
      } else {
        assert forall u: nat | u <= i && Fires(xs, hold, refractory, u) :: u <= t;
      }
      prev := xs[i];
    }
  }

  /** `_rising_edges`. */
  method RisingEdges(xs: seq<bool>) returns (edges: seq<nat>)
    ensures forall e | e in edges :: e < |xs| && RisingEdge(xs, e)
    ensures forall i: nat | i < |xs| && RisingEdge(xs, i) :: i in edges
    ensures forall p, q | 0 <= p < q < |edges| :: edges[p] < edges[q]
  {
    edges := [];
    var prev := false;
    for i := 0 to |xs|
      invariant prev == (i > 0 && xs[i - 1])
      invariant forall e | e in edges :: e < i && RisingEdge(xs, e)
      invariant forall k: nat | k < i && RisingEdge(xs, k) :: k in edges
      invariant forall p, q | 0 <= p < q < |edges| :: edges[p] < edges[q]
    {
      if xs[i] && !prev {
        assert forall p | 0 <= p < |edges| :: edges[p] in edges;
        edges := edges + [i];
      }
      prev := xs[i];
    }
  }

  /** `_runs_of_ones`: exactly the maximal runs, left to right. */
  method RunsOfOnes(xs: seq<bool>) returns (runs: seq<(nat, nat)>)
    ensures forall r | r in runs :: MaximalRun(xs, r.0, r.1)
    ensures forall a: nat, b: nat | MaximalRun(xs, a, b) :: (a, b) in runs
    ensures forall p, q | 0 <= p < q < |runs| :: runs[p].1 < runs[q].0
  {
    runs := [];
    var i, n := 0, |xs|;
    while i < n
      invariant 0 <= i <= n
      invariant forall r | r in runs :: MaximalRun(xs, r.0, r.1) && r.1 <= i
      invariant forall a: nat, b: nat | MaximalRun(xs, a, b) && a < i :: (a, b) in runs
      invariant 0 < i < n && xs[i - 1] ==> !xs[i]
      invariant forall p, q | 0 <= p < q < |runs| :: runs[p].1 < runs[q].0
    {
      if xs[i] {
        var j := i;
        while j < n && xs[j]
          invariant i <= j <= n
          invariant forall k | i <= k < j :: xs[k]
          decreases n - j
        {
          j := j + 1;
        }
        assert MaximalRun(xs, i, j);
        forall a: nat, b: nat | MaximalRun(xs, a, b) && i <= a < j
          ensures a == i && b == j
        {
          assert forall k | i <= k < j :: xs[k];
          assert j == n || !xs[j];
        }
        assert forall p | 0 <= p < |runs| :: runs[p] in runs && runs[p].1 < i;
        runs := runs + [(i, j)];
        i := j;
      } else {
        i := i + 1;
      }
    }
  }
}
