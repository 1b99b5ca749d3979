/** The ISR-to-main sample queue (main.c): a 16-slot ring indexed by free-running uint16
  * counters. The timer ISR may fire between any two channel copies of the main loop. */
module SampleQueue {
  import opened Wrappers
  import opened Layers

  const ADC_Q_LEN := 16
  const U16 := 0x10000

  /** `copied` is the main loop's local `s[]`, filled up to the channel it is at. */
  datatype Queue = Queue(slots: seq<Scan>, wr: nat, rd: nat, copied: Option<seq<int>>)

  predicate Sized(q: Queue)
  {
    && |q.slots| == ADC_Q_LEN && (forall i | 0 <= i < ADC_Q_LEN :: |q.slots[i]| == N_IN)
    && q.wr < U16 && q.rd < U16 && (q.copied.Some? ==> |q.copied.value| <= N_IN)
  }

  // ----- the atomic steps -----

  /** `Callback_TC0`: one scan per tick, then the write index is published. */
  function Push(q: Queue, scan: Scan): (r: Queue)
    requires Sized(q) && |scan| == N_IN
    ensures Sized(r)
  {
    q.(slots := q.slots[q.wr % ADC_Q_LEN := scan], wr := (q.wr + 1) % U16)
  }

  /** The loop test `s_q_rd != s_q_wr`, and the empty local copy. */
  function Begin(q: Queue): (r: Queue)
    requires Sized(q)
    ensures Sized(r)
  {
    if q.copied == None && q.rd != q.wr then q.(copied := Some([])) else q
  }

  /** Copies the next channel of the slot at the read index. */
  function CopyChannel(q: Queue): (r: Queue)
    requires Sized(q)
    ensures Sized(r)
  {
    if q.copied == None || |q.copied.value| == N_IN then q
    else q.(copied := Some(q.copied.value + [q.slots[q.rd % ADC_Q_LEN][|q.copied.value|]]))
  }

  /** The copied sample is handed on and the read index advanced. */
  function Finish(q: Queue): (r: Queue)
    requires Sized(q)
    ensures Sized(r)
  {
    if q.copied.Some? && |q.copied.value| == N_IN then q.(rd := (q.rd + 1) % U16, copied := None) else q
  }

  class AdcQueue {
    const slots: array<Scan>
    var wr: nat
    var rd: nat
    var copied: Option<seq<int>>

    ghost function Now(): Queue
      reads this, slots
    {
      Queue(slots[..], wr, rd, copied)
    }

    constructor ()
      ensures Sized(Now()) && wr == rd == 0 && copied == None && fresh(slots)
    {
      slots := new Scan[ADC_Q_LEN](_ => [0, 0, 0, 0, 0]);
      wr, rd, copied := 0, 0, None;
    }

    method Isr(scan: Scan)
      requires Sized(Now()) && |scan| == N_IN
      modifies slots, this`wr
      ensures Now() == Push(old(Now()), scan)
    {
      var wi := wr;
      for c := 0 to N_IN
        invariant |slots[wi % ADC_Q_LEN]| == N_IN && wr == wi
        invariant forall i | 0 <= i < ADC_Q_LEN && i != wi % ADC_Q_LEN :: slots[i] == old(slots[i])
        invariant forall k | 0 <= k < c :: slots[wi % ADC_Q_LEN][k] == scan[k]
      {
        slots[wi % ADC_Q_LEN] := slots[wi % ADC_Q_LEN][c := scan[c]];
      }
      assert slots[wi % ADC_Q_LEN] == scan;
      wr := (wi + 1) % U16;
      assert slots[..] == Push(old(Now()), scan).slots;
    }

    method Poll()
      requires Sized(Now())
      modifies this`copied
      ensures Now() == Begin(old(Now()))
    {
      if copied == None && rd != wr { copied := Some([]); }
    }

    method CopyNext()
      requires Sized(Now())
      modifies this`copied
      ensures Now() == CopyChannel(old(Now()))
    {
      if copied.Some? && |copied.value| < N_IN {
        copied := Some(copied.value + [slots[rd % ADC_Q_LEN][|copied.value|]]);
      }
    }

    method Deliver() returns (sample: Option<Scan>)
      requires Sized(Now())
      modifies this`rd, this`copied
      ensures Now() == Finish(old(Now()))
      ensures sample == if old(copied).Some? && |old(copied).value| == N_IN then old(copied) else None
    {
      sample := None;
      if copied.Some? && |copied.value| == N_IN {
        sample := copied;
        rd := (rd + 1) % U16;
        copied := None;
      }
    }
  }

  // ----- runs: any interleaving of the ISR with the main loop's steps -----

  datatype Event = Isr(scan: Scan) | Poll | Copy | Deliver

  /** The queue with everything ever pushed and everything handed to the main loop. */
  datatype Trace = Trace(q: Queue, pushed: seq<Scan>, consumed: seq<Scan>)

  /** Power-up: zeroed statics. */
  function Start(): (r: Trace)
    ensures Sized(r.q)
  {
    Trace(Queue(seq(ADC_Q_LEN, _ => [0, 0, 0, 0, 0]), 0, 0, None), [], [])
  }

  function Next(tr: Trace, e: Event): (r: Trace)
    requires Sized(tr.q) && (e.Isr? ==> |e.scan| == N_IN)
    ensures Sized(r.q)
  {
    match e
    case Isr(scan) => Trace(Push(tr.q, scan), tr.pushed + [scan], tr.consumed)
    case Poll => Trace(Begin(tr.q), tr.pushed, tr.consumed)
    case Copy => Trace(CopyChannel(tr.q), tr.pushed, tr.consumed)
    case Deliver =>
      Trace(Finish(tr.q), tr.pushed, tr.consumed + Delivered(tr.q))
  }

  /** The sample `Finish` hands on, if the copy is complete. */
  function Delivered(q: Queue): seq<Scan>
  {
    if q.copied.Some? && |q.copied.value| == N_IN then [q.copied.value] else []
  }

  predicate ScansSized(events: seq<Event>)
  {
    forall i | 0 <= i < |events| && events[i].Isr? :: |events[i].scan| == N_IN
  }

  function Run(events: seq<Event>): (r: Trace)
    requires ScansSized(events)
    ensures Sized(r.q)
  {
    if events == [] then Start() else Next(Run(events[..|events| - 1]), events[|events| - 1])
  }

  /** What the ISR could compute from the two indices. */
  function Outstanding(q: Queue): nat { (q.wr - q.rd) % U16 }

  /** Every push of the run finds at most 15 samples outstanding. */
  predicate RoomForEvery(events: seq<Event>)
    requires ScansSized(events)
  {
    events == [] ||
    (RoomForEvery(events[..|events| - 1]) &&
     (events[|events| - 1].Isr? ==> Outstanding(Run(events[..|events| - 1]).q) < ADC_Q_LEN))
  }

  ghost predicate InOrder(consumed: seq<Scan>, pushed: seq<Scan>)
  {
    |consumed| <= |pushed| && forall i | 0 <= i < |consumed| :: consumed[i] == pushed[i]
  }

  ghost predicate PartOf(copied: Option<seq<int>>, scan: Scan)
  {
    copied.Some? ==> |copied.value| <= |scan| && forall i | 0 <= i < |copied.value| :: copied.value[i] == scan[i]
  }

  ghost predicate Waiting(slots: seq<Scan>, pushed: seq<Scan>, r: nat)
    requires |slots| == ADC_Q_LEN
  {
    forall j | r <= j < |pushed| :: slots[j % ADC_Q_LEN] == pushed[j]
  }

  /** At most `ADC_Q_LEN` samples wait, each intact in its slot, a copy in progress is a
    * prefix of the oldest, and everything consumed is what was pushed, in order. */
  ghost predicate Fifo(tr: Trace)
  {
    && Sized(tr.q)
    && |tr.consumed| <= |tr.pushed| <= |tr.consumed| + ADC_Q_LEN
    && tr.q.wr == |tr.pushed| % U16 && tr.q.rd == |tr.consumed| % U16
    && InOrder(tr.consumed, tr.pushed)
    && Waiting(tr.q.slots, tr.pushed, |tr.consumed|)
    && (tr.q.copied.Some? ==> |tr.consumed| < |tr.pushed| && PartOf(tr.q.copied, tr.pushed[|tr.consumed|]))
  }

  /** The uint16 wrap is invisible: 65536 is a multiple of the ring length. */
  lemma WrapInvisible(x: nat)
    ensures (x % U16) % ADC_Q_LEN == x % ADC_Q_LEN
  {
  }

  lemma CountsMatch(tr: Trace)
    requires Fifo(tr)
    ensures Outstanding(tr.q) == |tr.pushed| - |tr.consumed|
  {
  }

  /** Slots of different waiting samples differ. */
  lemma SlotsDistinct(i: nat, j: nat)
    requires i < j < i + ADC_Q_LEN
    ensures i % ADC_Q_LEN != j % ADC_Q_LEN
  {
  }

  lemma WaitingGrows(slots: seq<Scan>, pushed: seq<Scan>, r: nat, at: nat, scan: Scan)
    requires |slots| == ADC_Q_LEN && Waiting(slots, pushed, r) && r <= |pushed| < r + ADC_Q_LEN
    requires at == |pushed| % ADC_Q_LEN
    ensures Waiting(slots[at := scan], pushed + [scan], r)
  {
    var w, longer := |pushed|, pushed + [scan];
    forall j | r <= j < |longer|
      ensures slots[at := scan][j % ADC_Q_LEN] == longer[j]
    {
      if j < w { SlotsDistinct(j, w); }
    }
  }

  lemma PushKeepsFifo(tr: Trace, scan: Scan)
    requires Fifo(tr) && |scan| == N_IN && Outstanding(tr.q) < ADC_Q_LEN
    ensures Fifo(Next(tr, Isr(scan)))
  {
    var r, w := |tr.consumed|, |tr.pushed|;
    CountsMatch(tr);
    WrapInvisible(w);
    WaitingGrows(tr.q.slots, tr.pushed, r, tr.q.wr % ADC_Q_LEN, scan);
  }

  lemma CopyKeepsFifo(tr: Trace)
    requires Fifo(tr)
    ensures Fifo(Next(tr, Copy))
  {
    var r := |tr.consumed|;
    WrapInvisible(r);
    if tr.q.copied.Some? { assert tr.q.slots[r % ADC_Q_LEN] == tr.pushed[r]; }
  }

  lemma DeliverKeepsFifo(tr: Trace)
    requires Fifo(tr)
    ensures Fifo(Next(tr, Deliver))
  {
    var r := |tr.consumed|;
    if tr.q.copied.Some? && |tr.q.copied.value| == N_IN {
      assert |tr.pushed[r]| == N_IN by { assert tr.q.slots[r % ADC_Q_LEN] == tr.pushed[r]; }
      assert tr.q.copied.value == tr.pushed[r];
    }
  }

  lemma PollKeepsFifo(tr: Trace)
    requires Fifo(tr)
    ensures Fifo(Next(tr, Poll))
  {
    CountsMatch(tr);
  }

  lemma StepKeepsFifo(tr: Trace, e: Event)
    requires Fifo(tr) && !e.Isr?
    ensures Fifo(Next(tr, e))
  {
    match e
    case Poll => PollKeepsFifo(tr);
    case Copy => CopyKeepsFifo(tr);
    case Deliver => DeliverKeepsFifo(tr);
  }

  /** For every interleaving in which each push finds at most 15 samples outstanding, the
    * main loop consumes exactly the pushed samples: untorn, in order, none lost or repeated,
    * and the rest still wait intact, across any number of index wrap-arounds. */
  lemma {:induction false} QueueDeliversInOrder(events: seq<Event>)
    requires ScansSized(events) && RoomForEvery(events)
    ensures Fifo(Run(events))
  {
    if events != [] {
      var tr, e := Run(events[..|events| - 1]), events[|events| - 1];
      QueueDeliversInOrder(events[..|events| - 1]);
      if e.Isr? { PushKeepsFifo(tr, e.scan); } else { StepKeepsFifo(tr, e); }
    }
  }

  lemma FullRingMeets(tr: Trace)
    requires Fifo(tr) && Outstanding(tr.q) == ADC_Q_LEN
    ensures tr.q.wr % ADC_Q_LEN == tr.q.rd % ADC_Q_LEN == |tr.consumed| % ADC_Q_LEN && |tr.pushed| == |tr.consumed| + ADC_Q_LEN
  {
    CountsMatch(tr);
    WrapInvisible(|tr.pushed|);
    WrapInvisible(|tr.consumed|);
  }

  /** The condition cannot be weakened: with 16 outstanding, a push leaves the oldest waiting
    * sample intact exactly when it repeats it. */
  lemma OverrunReplacesOldest(tr: Trace, scan: Scan)
    requires Fifo(tr) && |scan| == N_IN && Outstanding(tr.q) == ADC_Q_LEN
    ensures var oldest := |tr.consumed|;
            Next(tr, Isr(scan)).q.slots[oldest % ADC_Q_LEN] == tr.pushed[oldest] <==> scan == tr.pushed[oldest]
  {
    FullRingMeets(tr);
  }

  /** `n` more channel copies. */
  function CopyOn(q: Queue, n: nat): (r: Queue)
    requires Sized(q)
    ensures Sized(r)
  {
    if n == 0 then q else CopyChannel(CopyOn(q, n - 1))
  }

  /** They extend the copy by the next channels of the slot at the read index. */
  lemma {:induction false} CopiesExtend(q: Queue, n: nat)
    requires Sized(q) && q.copied.Some? && |q.copied.value| + n <= N_IN
    ensures var c, slot := q.copied.value, q.slots[q.rd % ADC_Q_LEN];
      CopyOn(q, n) == q.(copied := Some(c + slot[|c|..|c| + n]))
  {
    var c, slot := q.copied.value, q.slots[q.rd % ADC_Q_LEN];
    if n == 0 {
      assert c + slot[|c|..|c|] == c;
    } else {
      CopiesExtend(q, n - 1);
      var part, next := slot[|c|..|c| + n - 1], slot[|c| + n - 1];
      assert slot[|c|..|c| + n] == part + [next];
      assert (c + part) + [next] == c + (part + [next]);
      assert |c + part| == |c| + n - 1;
    }
  }

  /** A push into the slot being copied: the channels still to come are the new scan's. */
  lemma PushIntoCopy(q: Queue, scan: Scan)
    requires Sized(q) && |scan| == N_IN && q.wr % ADC_Q_LEN == q.rd % ADC_Q_LEN && q.copied.Some?
    ensures var k := |q.copied.value|;
      Delivered(CopyOn(Push(q, scan), N_IN - k)) == [q.copied.value + scan[k..N_IN]]
  {
    var at := q.rd % ADC_Q_LEN;
    assert Push(q, scan).slots[at] == scan;
    CopiesExtend(Push(q, scan), N_IN - |q.copied.value|);
  }

  function Repeat(tr: Trace, n: nat): (r: Trace)
    requires Sized(tr.q)
    ensures Sized(r.q)
  {
    if n == 0 then tr else Next(Repeat(tr, n - 1), Copy)
  }

  lemma {:induction false} RepeatCopies(tr: Trace, n: nat)
    requires Sized(tr.q)
    ensures Repeat(tr, n) == Trace(CopyOn(tr.q, n), tr.pushed, tr.consumed)
  {
    if n > 0 {
      RepeatCopies(tr, n - 1);
    }
  }

  /** And if it strikes while the oldest sample is being copied, `k` channels of it taken, the sample
    * handed on has those `k` channels and the rest of the new scan. */
  lemma OverrunTearsCopy(tr: Trace, scan: Scan, k: nat)
    requires Fifo(tr) && |scan| == N_IN && Outstanding(tr.q) == ADC_Q_LEN
    requires tr.q.copied.Some? && |tr.q.copied.value| == k
    ensures k <= N_IN && N_IN == |tr.pushed[|tr.consumed|]|
    ensures var oldest := tr.pushed[|tr.consumed|];
            Next(Repeat(Next(tr, Isr(scan)), N_IN - k), Deliver).consumed == tr.consumed + [oldest[..k] + scan[k..N_IN]]
  {
    var r, pushed := |tr.consumed|, Next(tr, Isr(scan));
    FullRingMeets(tr);
    PushIntoCopy(tr.q, scan);
    RepeatCopies(pushed, N_IN - k);
    assert tr.q.slots[r % ADC_Q_LEN] == tr.pushed[r];
    assert tr.q.copied.value == tr.pushed[r][..k];
  }

  // ----- nothing is left waiting -----

  /** One uninterrupted round of the main loop: the test, the five copies, the hand-over. */
  function Round(tr: Trace): (r: Trace)
    requires Sized(tr.q)
    ensures Sized(r.q)
  {
    Next(Repeat(Next(tr, Poll), 5), Deliver)
  }

  function Rounds(tr: Trace, n: nat): (r: Trace)
    requires Sized(tr.q)
    ensures Sized(r.q)
  {
    if n == 0 then tr else Round(Rounds(tr, n - 1))
  }

  lemma {:induction false} RepeatKeepsFifo(tr: Trace, n: nat)
    requires Fifo(tr)
    ensures Fifo(Repeat(tr, n))
  {
    if n > 0 {
      RepeatKeepsFifo(tr, n - 1);
      StepKeepsFifo(Repeat(tr, n - 1), Copy);
    }
  }

  lemma RoundKeepsFifo(tr: Trace)
    requires Fifo(tr)
    ensures Fifo(Round(tr))
  {
    StepKeepsFifo(tr, Poll);
    RepeatKeepsFifo(Next(tr, Poll), 5);
    StepKeepsFifo(Repeat(Next(tr, Poll), 5), Deliver);
  }

  lemma SamplesWait(tr: Trace)
    requires Fifo(tr) && |tr.consumed| < |tr.pushed|
    ensures tr.q.rd != tr.q.wr && tr.q.slots[tr.q.rd % 16] == tr.pushed[|tr.consumed|]
  {
    CountsMatch(tr);
    WrapInvisible(|tr.consumed|);
  }

  /** A round with a sample waiting consumes exactly the oldest one. */
  lemma RoundDelivers(tr: Trace)
    requires Fifo(tr) && tr.q.copied == None && |tr.consumed| < |tr.pushed|
    ensures var r := Round(tr);
      Fifo(r) && r.q.copied == None && r.pushed == tr.pushed && r.consumed == tr.consumed + [tr.pushed[|tr.consumed|]]
  {
    var polled := Next(tr, Poll);
    RoundKeepsFifo(tr);
    SamplesWait(tr);
    RepeatCopies(polled, 5);
    CopiesExtend(polled.q, 5);
    var slot := tr.q.slots[tr.q.rd % 16];
    assert [] + slot[0..0 + 5] == slot;
  }

  lemma NextWaiting(pushed: seq<Scan>, r: nat, n: nat)
    requires r + n < |pushed|
    ensures pushed[r..r + n] + [pushed[r + n]] == pushed[r..r + n + 1]
  {
  }

  /** As many rounds as samples wait consume them all, in order. */
  lemma {:induction false} RoundsDeliver(tr: Trace, n: nat)
    requires Fifo(tr) && tr.q.copied == None && |tr.consumed| + n <= |tr.pushed|
    ensures var r := Rounds(tr, n);
      && Fifo(r) && r.q.copied == None && r.pushed == tr.pushed
      && r.consumed == tr.consumed + tr.pushed[|tr.consumed|..|tr.consumed| + n]
  {
    var from := |tr.consumed|;
    if n > 0 {
      RoundsDeliver(tr, n - 1);
      RoundDelivers(Rounds(tr, n - 1));
      NextWaiting(tr.pushed, from, n - 1);
    } else {
      assert tr.pushed[from..from] == [];
    }
  }

  lemma CatchesUpFrom(tr: Trace)
    requires Fifo(tr) && tr.q.copied == None
    ensures |tr.consumed| <= |tr.pushed| && Rounds(tr, |tr.pushed| - |tr.consumed|).consumed == tr.pushed
  {
    RoundsDeliver(tr, |tr.pushed| - |tr.consumed|);
    AllInOrder(tr.consumed, tr.pushed);
  }

  lemma AllInOrder(consumed: seq<Scan>, pushed: seq<Scan>)
    requires InOrder(consumed, pushed)
    ensures consumed + pushed[|consumed|..|pushed|] == pushed
  {
    assert consumed == pushed[..|consumed|];
  }

  /** So after any run in which every push found room, the main loop left alone catches up completely. */
  lemma CatchesUp(events: seq<Event>)
    requires ScansSized(events) && RoomForEvery(events) && Run(events).q.copied == None
    ensures var tr := Run(events);
      |tr.consumed| <= |tr.pushed| && Rounds(tr, |tr.pushed| - |tr.consumed|).consumed == Scans(events)
  {
    QueueDeliversInOrder(events);
    CatchesUpFrom(Run(events));
    PushedScans(events);
  }

  /** What has been pushed is what the interrupt delivered, in order. */
  function Scans(events: seq<Event>): seq<Scan>
  {
    if events == [] then [] else
    var e := events[|events| - 1];
    Scans(events[..|events| - 1]) + if e.Isr? then [e.scan] else []
  }

  lemma {:induction false} PushedScans(events: seq<Event>)
    requires ScansSized(events)
    ensures Run(events).pushed == Scans(events)
  {
    if events != [] { PushedScans(events[..|events| - 1]); }
  }

  /** The two indices are the numbers of samples pushed and consumed, modulo 65536. */
  lemma IndicesCount(events: seq<Event>)
    requires ScansSized(events) && RoomForEvery(events)
    ensures var tr := Run(events); tr.q.wr == |Scans(events)| % 0x10000 && tr.q.rd == |tr.consumed| % 0x10000
  {
    QueueDeliversInOrder(events);
    PushedScans(events);
  }
}
