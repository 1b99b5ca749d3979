/** What the scheduler guarantees over whole runs: every strum finds exactly its own chord
  * fretted, chords are strummed once, in commit order and in alternating directions. */
module StrumSafety {
  import opened Wrappers
  import opened Actuator

  predicate TimingOk(t: Timing) { t.pulse > 0.0 && t.early >= 0.0 }

  /** The strum entry committed together with a note entry. */
  function StrumOf(note: Pending, t: Timing): Pending { Pending(note.mask, note.at + t.early) }

  /** The two queues hold the same chords (the first may already be fretted), each fretted
    * `early` before its strum and not before the previous strum's pulse is over. */
  ghost predicate Aligned(notes: seq<Pending>, strums: seq<Pending>, frets: Mask, t: Timing)
  {
    var k := |strums| - |notes|;
    && 0 <= k <= 1 && |strums| <= FIFO_CAP
    && (forall j | k <= j < |strums| :: strums[j] == StrumOf(notes[j - k], t))
    && (forall j | 0 < j < |strums| :: strums[j].at >= strums[j - 1].at + t.pulse + t.early)
    && (k == 1 ==> frets == strums[0].mask)
  }

  /** The state between ticks, `last` being the time of the latest one: nothing is overdue. */
  ghost predicate Ready(s: Sched, t: Timing, last: real)
  {
    && Aligned(s.noteQ, s.strumQ, s.frets, t)
    && (s.noteQ != [] ==> last < s.noteQ[0].at)
    && (s.strumQ != [] ==> last < s.strumQ[0].at)
    && (!s.enabled ==> s.strumQ == [])
  }

  // ----- one pass over each queue -----

  /** How many entries at the head are due. */
  function Due(q: seq<Pending>, now: real): (r: nat)
    ensures r <= |q|
    ensures forall i | 0 <= i < r :: q[i].at <= now
    ensures r < |q| ==> now < q[r].at
  {
    if q == [] || now < q[0].at then 0 else 1 + Due(q[1..], now)
  }

  ghost predicate Dropped(q: seq<Pending>, n: nat, rest: seq<Pending>)
  {
    n <= |q| && |rest| == |q| - n && forall i | 0 <= i < |rest| :: rest[i] == q[n + i]
  }

  lemma {:induction false} NotesPass(q: seq<Pending>, frets: Mask, now: real)
    ensures var d, (rest, f) := Due(q, now), NoteLoop(q, frets, now);
            Dropped(q, d, rest) && f == if d == 0 then frets else q[d - 1].mask
  {
    if q != [] && now >= q[0].at {
      NotesPass(q[1..], q[0].mask, now);
      DroppedCons(q, Due(q[1..], now), NoteLoop(q, frets, now).0);
    }
  }

  lemma DroppedCons(q: seq<Pending>, n: nat, rest: seq<Pending>)
    requires q != [] && Dropped(q[1..], n, rest)
    ensures Dropped(q, n + 1, rest) && (n > 0 ==> q[1..][n - 1] == q[n])
  {
  }

  /** The direction of the `i`-th pulse from a state whose last direction was `up`. */
  function Direction(up: bool, i: nat): bool { if i % 2 == 0 then !up else up }

  /** What a pass logs: one outcome per due strum, all seeing the same frets. */
  ghost predicate Logged(log: seq<Outcome>, log': seq<Outcome>, q: seq<Pending>, e: nat, frets: Mask, up: bool)
  {
    e <= |q| && |log'| == |log| + e &&
    (forall i | 0 <= i < |log| :: log'[i] == log[i]) &&
    (forall i | 0 <= i < e :: log'[|log| + i] == Strummed(q[i].mask, frets, Direction(up, i)))
  }

  /** Logging the head, then the rest of the queue. */
  lemma LoggedCons(log: seq<Outcome>, log': seq<Outcome>, q: seq<Pending>, e: nat, frets: Mask, up: bool)
    requires q != [] && Logged(log + [Strummed(q[0].mask, frets, !up)], log', q[1..], e, frets, !up)
    ensures Logged(log, log', q, e + 1, frets, up)
  {
    var log1 := log + [Strummed(q[0].mask, frets, !up)];
    var n := e + 1;
    forall i | 0 <= i < |log|
      ensures log'[i] == log[i]
    {
      assert log1[i] == log[i];
    }
    forall i | 0 <= i < n
      ensures log'[|log| + i] == Strummed(q[i].mask, frets, Direction(up, i))
    {
      if i == 0 {
        assert log'[|log|] == log1[|log|];
      } else {
        var j := i - 1;
        assert log'[|log1| + j] == Strummed(q[1..][j].mask, frets, Direction(!up, j));
      }
    }
  }

  lemma {:induction false} StrumsPass(q: seq<Pending>, up: bool, frets: Mask, now: real, log: seq<Outcome>)
    ensures var e, (rest, up', log') := Due(q, now), StrumLoop(q, up, frets, now, log);
            Dropped(q, e, rest) && Logged(log, log', q, e, frets, up) && up' == (if e % 2 == 0 then up else !up)
  {
    if q != [] && now >= q[0].at {
      var log1 := log + [Strummed(q[0].mask, frets, !up)];
      StrumsPass(q[1..], !up, frets, now, log1);
      LoggedCons(log, StrumLoop(q, up, frets, now, log).2, q, Due(q[1..], now), frets, up);
    }
  }

  // ----- commit -----

  /** `q` grew by the chords `c` at its end. */
  ghost predicate Grew(q: seq<Pending>, c: seq<Mask>, q': seq<Pending>)
  {
    && |q'| == |q| + |c|
    && (forall i | 0 <= i < |q| :: q'[i] == q[i])
    && (forall i | 0 <= i < |c| :: q'[|q| + i].mask == c[i])
  }

  lemma CommitKeepsAligned(s: Sched, t: Timing, now: real)
    requires Aligned(s.noteQ, s.strumQ, s.frets, t) && TimingOk(t)
    ensures var r, c := ChordCommit(s, t, now), if |s.strumQ| == FIFO_CAP then [] else [s.chordMask];
            Aligned(r.noteQ, r.strumQ, r.frets, t) && Grew(s.noteQ, c, r.noteQ) && Grew(s.strumQ, c, r.strumQ)
  {
    var r := ChordCommit(s, t, now);
    if |s.strumQ| < FIFO_CAP {
      var k, m := |s.strumQ| - |s.noteQ|, |s.strumQ|;
      forall j | k <= j < m + 1
        ensures r.strumQ[j] == StrumOf(r.noteQ[j - k], t)
      {
        assert j < m ==> s.strumQ[j] == StrumOf(s.noteQ[j - k], t);
      }
    }
  }

  /** The state the two passes start from. */
  function Primed(s: Sched, t: Timing, now: real, det: map<Channel, Detect>): Sched
  {
    Settle(Sense(s, t, now, det), t, now)
  }

  function Newly(s: Sched, t: Timing, now: real, det: map<Channel, Detect>): seq<Mask>
  {
    Committed(Sense(s, t, now, det), t, now)
  }

  lemma SenseKeepsQueues(s: Sched, t: Timing, now: real, det: map<Channel, Detect>)
    ensures var r := Sense(s, t, now, det);
            r.noteQ == s.noteQ && r.strumQ == s.strumQ && r.frets == s.frets && r.enabled == s.enabled && r.strumUp == s.strumUp
  {
  }

  lemma SettleCommits(s: Sched, t: Timing, now: real)
    requires Aligned(s.noteQ, s.strumQ, s.frets, t) && TimingOk(t)
    ensures var p, c := Settle(s, t, now), Committed(s, t, now);
            Aligned(p.noteQ, p.strumQ, p.frets, t) && p.enabled == s.enabled && p.strumUp == s.strumUp && |c| <= 1 &&
            Grew(s.noteQ, c, p.noteQ) && Grew(s.strumQ, c, p.strumQ)
  {
    CommitKeepsAligned(s, t, now);
  }

  lemma PrimedState(s: Sched, t: Timing, now: real, det: map<Channel, Detect>)
    requires Aligned(s.noteQ, s.strumQ, s.frets, t) && TimingOk(t)
    ensures var p, c := Primed(s, t, now, det), Newly(s, t, now, det);
            Aligned(p.noteQ, p.strumQ, p.frets, t) && p.enabled == s.enabled && p.strumUp == s.strumUp && |c| <= 1 &&
            Grew(s.noteQ, c, p.noteQ) && Grew(s.strumQ, c, p.strumQ)
  {
    SenseKeepsQueues(s, t, now, det);
    SettleCommits(Sense(s, t, now, det), t, now);
  }

  // ----- one tick -----

  /** The chord whose frets every strum of a pass finds: the last one fretted. */
  function LastFretted(notes: seq<Pending>, strums: seq<Pending>, now: real): int
  {
    |strums| - |notes| + Due(notes, now) - 1
  }

  lemma {:induction false} SortedByTime(strums: seq<Pending>, t: Timing, i: nat, j: nat)
    requires TimingOk(t) && forall j | 0 < j < |strums| :: strums[j].at >= strums[j - 1].at + t.pulse + t.early
    requires i <= j < |strums|
    ensures strums[i].at <= strums[j].at
    decreases j
  {
    if i < j { SortedByTime(strums, t, i, j - 1); }
  }

  /** A strum is due only if its chord is fretted, and all before the last fretted are due. */
  lemma DueCounts(notes: seq<Pending>, strums: seq<Pending>, frets: Mask, t: Timing, now: real)
    requires Aligned(notes, strums, frets, t) && TimingOk(t)
    ensures LastFretted(notes, strums, now) <= Due(strums, now) <= LastFretted(notes, strums, now) + 1
  {
    var d, e, k := Due(notes, now), Due(strums, now), |strums| - |notes|;
    if d < |notes| {
      assert strums[k + d] == StrumOf(notes[d], t);
    }
    if d > 0 && e < k + d - 1 {
      assert strums[k + d - 1] == StrumOf(notes[d - 1], t);
      SortedByTime(strums, t, e, k + d - 2);
    }
  }

  /** One pass over both queues: what is left, the frets in place and the outcomes. */
  ghost predicate PassResult(notes: seq<Pending>, strums: seq<Pending>, up: bool, now: real,
                             notes': seq<Pending>, strums': seq<Pending>, frets': Mask, log: seq<Outcome>)
  {
    var last, e := LastFretted(notes, strums, now), Due(strums, now);
    && Dropped(notes, Due(notes, now), notes') && Dropped(strums, e, strums')
    && last < |strums| && (last >= 0 ==> frets' == strums[last].mask)
    && |log| == e && (e > 0 ==> last >= 0)
    && forall i | 0 <= i < e :: log[i] == Strummed(strums[i].mask, frets', Direction(up, i))
  }

  lemma PassBoth(notes: seq<Pending>, strums: seq<Pending>, frets: Mask, t: Timing, now: real, up: bool)
    requires Aligned(notes, strums, frets, t) && TimingOk(t)
    ensures var (notes', frets') := NoteLoop(notes, frets, now);
            var (strums', up', log) := StrumLoop(strums, up, frets', now, []);
            PassResult(notes, strums, up, now, notes', strums', frets', log) &&
            up' == (if |log| % 2 == 0 then up else !up)
  {
    LastFrettedFrets(notes, strums, frets, t, now);
    StrumsPass(strums, up, NoteLoop(notes, frets, now).1, now, []);
  }

  /** After the note pass the frets are those of the last chord fretted. */
  lemma LastFrettedFrets(notes: seq<Pending>, strums: seq<Pending>, frets: Mask, t: Timing, now: real)
    requires Aligned(notes, strums, frets, t) && TimingOk(t)
    ensures var (notes', frets') := NoteLoop(notes, frets, now);
      var last := LastFretted(notes, strums, now);
      && Dropped(notes, Due(notes, now), notes') && last < |strums| && (last >= 0 ==> frets' == strums[last].mask)
      && (Due(strums, now) > 0 ==> last >= 0)
  {
    NotesPass(notes, frets, now);
    DueCounts(notes, strums, frets, t, now);
    var d, k := Due(notes, now), |strums| - |notes|;
    if d > 0 { assert strums[k + d - 1] == StrumOf(notes[d - 1], t); }
  }

  /** What is left after a pass is aligned again and nothing in it is due. */
  lemma PassKeepsAligned(notes: seq<Pending>, strums: seq<Pending>, frets: Mask, t: Timing, now: real, up: bool,
                         notes': seq<Pending>, strums': seq<Pending>, frets': Mask, log: seq<Outcome>)
    requires Aligned(notes, strums, frets, t) && TimingOk(t)
    requires PassResult(notes, strums, up, now, notes', strums', frets', log)
    ensures Aligned(notes', strums', frets', t)
    ensures (notes' != [] ==> now < notes'[0].at) && (strums' != [] ==> now < strums'[0].at)
  {
    DueCounts(notes, strums, frets, t, now);
    var d, e, k := Due(notes, now), Due(strums, now), |strums| - |notes|;
    var k' := |strums'| - |notes'|;
    forall j | k' <= j < |strums'|
      ensures strums'[j] == StrumOf(notes'[j - k'], t)
    {
      assert strums[e + j] == StrumOf(notes[e + j - k], t);
      assert notes'[j - k'] == notes[d + (j - k')];
    }
    forall j | 0 < j < |strums'|
      ensures strums'[j].at >= strums'[j - 1].at + t.pulse + t.early
    {
      assert strums[e + j].at >= strums[e + j - 1].at + t.pulse + t.early;
    }
  }

  /** Deferred releases never touch a fret of a queued chord. */
  lemma ReleasesSpareQueued(s: Sched, now: real, det: map<Channel, Detect>)
    requires s.strumQ != [] && s.frets == s.strumQ[0].mask
    ensures ProcessReleases(s, now, det).frets == s.frets
  {
  }

  /** The outcomes of a tick, as `PassResult` describes them, from the primed queues. */
  lemma TickIsPass(s: Sched, t: Timing, now: real, det: map<Channel, Detect>)
    requires TimingOk(t) && Aligned(s.noteQ, s.strumQ, s.frets, t)
    ensures var p, (r, log) := Primed(s, t, now, det), Tick(s, t, now, det);
            PassResult(p.noteQ, p.strumQ, s.strumUp, now, r.noteQ, r.strumQ, NoteLoop(p.noteQ, p.frets, now).1, log) &&
            r.strumUp == (if |log| % 2 == 0 then s.strumUp else !s.strumUp) && r.enabled == s.enabled
  {
    var p := Primed(s, t, now, det);
    PrimedState(s, t, now, det);
    PassBoth(p.noteQ, p.strumQ, p.frets, t, now, p.strumUp);
  }

  /** A tick leaves nothing overdue and the queues aligned, whatever the gap since the last. */
  lemma TickKeepsReady(s: Sched, t: Timing, now: real, det: map<Channel, Detect>)
    requires TimingOk(t) && Aligned(s.noteQ, s.strumQ, s.frets, t) && s.enabled
    ensures Ready(Tick(s, t, now, det).0, t, now)
  {
    var p := Primed(s, t, now, det);
    var (r, log) := Tick(s, t, now, det);
    var frets := NoteLoop(p.noteQ, p.frets, now).1;
    PrimedState(s, t, now, det);
    TickIsPass(s, t, now, det);
    PassKeepsAligned(p.noteQ, p.strumQ, p.frets, t, now, s.strumUp, r.noteQ, r.strumQ, frets, log);
    if |r.strumQ| > |r.noteQ| {
      ReleasesSpareQueued(ProcessStrums(ProcessNotes(p, now), t, now).0, now, det);
    }
  }

  /** For any gap since the last tick: the due chords are strummed in queue order, each
    * finding the frets of the last chord fretted, hence its own exactly when those agree. */
  lemma OwnFretsExactly(s: Sched, t: Timing, now: real, det: map<Channel, Detect>, i: nat)
    requires TimingOk(t) && Aligned(s.noteQ, s.strumQ, s.frets, t)
    requires i < |Tick(s, t, now, det).1|
    ensures var p, out := Primed(s, t, now, det), Tick(s, t, now, det).1[i];
            var last := LastFretted(p.noteQ, p.strumQ, now);
            i < |p.strumQ| && 0 <= last < |p.strumQ| && out.Strummed? && out.mask == p.strumQ[i].mask &&
            (out.frets == out.mask <==> p.strumQ[last].mask == p.strumQ[i].mask)
  {
    TickIsPass(s, t, now, det);
  }

  /** With at most one strum pulse between ticks while a strum is queued, at most one strum fires per
    * tick, and it finds exactly its own chord fretted. */
  lemma StrumFindsItsFrets(s: Sched, t: Timing, last: real, now: real, det: map<Channel, Detect>)
    requires TimingOk(t) && Ready(s, t, last) && (s.strumQ == [] || now <= last + t.pulse)
    ensures var log := Tick(s, t, now, det).1;
            |log| <= 1 && forall i | 0 <= i < |log| :: log[i].Strummed? && log[i].frets == log[i].mask
  {
    var p := Primed(s, t, now, det);
    PrimedState(s, t, now, det);
    TickIsPass(s, t, now, det);
    OneDueAtATime(p.noteQ, p.strumQ, p.frets, t, now);
  }

  /** If the first strum is less than a pulse overdue the second chord is not fretted yet. */
  lemma OneDueAtATime(notes: seq<Pending>, strums: seq<Pending>, frets: Mask, t: Timing, now: real)
    requires Aligned(notes, strums, frets, t) && TimingOk(t)
    requires |strums| >= 2 ==> now < strums[0].at + t.pulse
    ensures Due(strums, now) <= 1 && LastFretted(notes, strums, now) <= 0
  {
    DueCounts(notes, strums, frets, t, now);
    var k := |strums| - |notes|;
    if |strums| >= 2 {
      assert strums[1].at >= strums[0].at + t.pulse + t.early > now + t.early;
      assert strums[1] == StrumOf(notes[1 - k], t);
    }
  }

  /** The exact failure: a tick that finds the first strum due and the second chord's frets due but
    * not its strum sounds the first chord on the second one's frets. */
  lemma LateTickMisfrets(s: Sched, t: Timing, now: real, det: map<Channel, Detect>)
    requires TimingOk(t) && Aligned(s.noteQ, s.strumQ, s.frets, t)
    requires Primed(s, t, now, det).noteQ == s.noteQ && Primed(s, t, now, det).strumQ == s.strumQ
    requires |s.noteQ| == 2 == |s.strumQ| && s.noteQ[0].at <= now
    requires s.strumQ[0].at <= now < s.strumQ[1].at && s.noteQ[1].at <= now
    ensures Tick(s, t, now, det).1 == [Strummed(s.strumQ[0].mask, s.strumQ[1].mask, !s.strumUp)]
  {
    TickIsPass(s, t, now, det);
    TwoDue(s.strumQ, now);
    TwoDue(s.noteQ, now);
  }

  lemma TwoDue(q: seq<Pending>, now: real)
    requires |q| == 2 && q[0].at <= now
    ensures Due(q, now) == if q[1].at <= now then 2 else 1
  {
    assert q[1..][0] == q[1] && |q[1..]| == 1;
  }

  /** A due chord is lost exactly when the strum FIFO is full. */
  lemma LostOnlyWhenFull(s: Sched, t: Timing, last: real, now: real, det: map<Channel, Detect>)
    requires Ready(s, t, last) && CommitDue(Sense(s, t, now, det), t, now)
    ensures Newly(s, t, now, det) == [] <==> |s.strumQ| == FIFO_CAP
  {
  }

  // ----- whole runs -----

  datatype Input = At(now: real, det: map<Channel, Detect>) | Enable(on: bool)

  /** The state with the full history of queued chords and of what became of them. */
  datatype Trace = Trace(s: Sched, last: Option<real>, committed: seq<Mask>, outcomes: seq<Outcome>)

  function Next(tr: Trace, t: Timing, input: Input): Trace
  {
    match input
    case At(now, det) =>
      if !tr.s.enabled then tr.(last := Some(now))
      else
        var (s, log) := Tick(tr.s, t, now, det);
        Trace(s, Some(now), tr.committed + Newly(tr.s, t, now, det), tr.outcomes + log)
    case Enable(on) =>
      var lost := if on then [] else seq(|tr.s.strumQ|, i requires 0 <= i < |tr.s.strumQ| => Discarded(tr.s.strumQ[i].mask));
      tr.(s := SetEnabled(tr.s, on), outcomes := tr.outcomes + lost)
  }

  function Run(t: Timing, inputs: seq<Input>): Trace
  {
    if inputs == [] then Trace(IDLE, None, [], []) else Next(Run(t, inputs[..|inputs| - 1]), t, inputs[|inputs| - 1])
  }

  /** While a strum is queued the clock jumps by no more than a strum pulse. */
  predicate InStep(tr: Trace, t: Timing, input: Input)
  {
    input.At? && tr.s.strumQ != [] && tr.last.Some? ==> input.now <= tr.last.value + t.pulse
  }

  predicate Paced(t: Timing, inputs: seq<Input>)
  {
    inputs == [] ||
    (Paced(t, inputs[..|inputs| - 1]) && InStep(Run(t, inputs[..|inputs| - 1]), t, inputs[|inputs| - 1]))
  }

  /** Every queued chord has exactly one fate, in commit order, or still waits. */
  ghost predicate OnceEach(committed: seq<Mask>, outcomes: seq<Outcome>, waiting: seq<Pending>)
  {
    && |committed| == |outcomes| + |waiting|
    && (forall i | 0 <= i < |outcomes| :: committed[i] == outcomes[i].mask)
    && (forall i | |outcomes| <= i < |committed| :: committed[i] == waiting[i - |outcomes|].mask)
  }

  ghost predicate OncePerChord(tr: Trace) { OnceEach(tr.committed, tr.outcomes, tr.s.strumQ) }

  lemma OnceEachGrows(committed: seq<Mask>, outcomes: seq<Outcome>, q: seq<Pending>, c: seq<Mask>, q': seq<Pending>)
    requires OnceEach(committed, outcomes, q) && Grew(q, c, q')
    ensures OnceEach(committed + c, outcomes, q')
  {
    forall i | |outcomes| <= i < |committed + c|
      ensures (committed + c)[i] == q'[i - |outcomes|].mask
    {
      if i >= |committed| { assert q'[|q| + (i - |committed|)].mask == c[i - |committed|]; }
    }
  }

  lemma OnceEachPops(committed: seq<Mask>, outcomes: seq<Outcome>, q: seq<Pending>, log: seq<Outcome>, rest: seq<Pending>)
    requires OnceEach(committed, outcomes, q) && Dropped(q, |log|, rest)
    requires forall i | 0 <= i < |log| :: log[i].mask == q[i].mask
    ensures OnceEach(committed, outcomes + log, rest)
  {
    var n := |outcomes|;
    forall i | n + |log| <= i < |committed|
      ensures committed[i] == rest[i - (n + |log|)].mask
    {
      assert rest[i - (n + |log|)] == q[|log| + (i - (n + |log|))];
    }
  }

  ghost predicate OwnFrets(outcomes: seq<Outcome>)
  {
    forall i | 0 <= i < |outcomes| && outcomes[i].Strummed? :: outcomes[i].frets == outcomes[i].mask
  }

  /** How many of the first `n` outcomes are strums. */
  function Strums(outcomes: seq<Outcome>, n: nat): nat
    requires n <= |outcomes|
  {
    if n == 0 then 0 else Strums(outcomes, n - 1) + if outcomes[n - 1].Strummed? then 1 else 0
  }

  /** Strums alternate, starting upwards, across chords that were discarded in between. */
  ghost predicate Alternating(tr: Trace)
  {
    && (forall i | 0 <= i < |tr.outcomes| && tr.outcomes[i].Strummed? ::
          tr.outcomes[i].up == (Strums(tr.outcomes, i) % 2 == 0))
    && tr.s.strumUp == (Strums(tr.outcomes, |tr.outcomes|) % 2 == 1)
  }

  lemma {:induction false} StrumsPrefix(a: seq<Outcome>, b: seq<Outcome>, n: nat)
    requires n <= |a| && n <= |b| && forall i | 0 <= i < n :: a[i] == b[i]
    ensures Strums(a, n) == Strums(b, n)
  {
    if n > 0 { StrumsPrefix(a, b, n - 1); }
  }

  lemma {:induction false} NoStrums(a: seq<Outcome>, m: nat, n: nat)
    requires m <= n <= |a| && forall i | m <= i < n :: a[i].Discarded?
    ensures Strums(a, n) == Strums(a, m)
    decreases n
  {
    if m < n { NoStrums(a, m, n - 1); }
  }

  lemma TickOncePerChord(tr: Trace, t: Timing, now: real, det: map<Channel, Detect>)
    requires TimingOk(t) && Aligned(tr.s.noteQ, tr.s.strumQ, tr.s.frets, t) && tr.s.enabled && OncePerChord(tr)
    ensures OncePerChord(Next(tr, t, At(now, det)))
  {
    var p, c := Primed(tr.s, t, now, det), Newly(tr.s, t, now, det);
    var (r, log) := Tick(tr.s, t, now, det);
    PrimedState(tr.s, t, now, det);
    TickIsPass(tr.s, t, now, det);
    OnceEachGrows(tr.committed, tr.outcomes, tr.s.strumQ, c, p.strumQ);
    OnceEachPops(tr.committed + c, tr.outcomes, p.strumQ, log, r.strumQ);
  }

  /** Adding at most one strum in the next direction keeps the alternation. */
  lemma AlternatesOn(tr: Trace, tr': Trace, log: seq<Outcome>)
    requires Alternating(tr) && tr'.outcomes == tr.outcomes + log && |log| <= 1
    requires forall i | 0 <= i < |log| :: log[i].Strummed? && log[i].up == !tr.s.strumUp
    requires tr'.s.strumUp == if |log| % 2 == 0 then tr.s.strumUp else !tr.s.strumUp
    ensures Alternating(tr')
  {
    forall i | 0 <= i <= |tr.outcomes|
      ensures Strums(tr'.outcomes, i) == Strums(tr.outcomes, i)
    {
      StrumsPrefix(tr'.outcomes, tr.outcomes, i);
    }
  }

  lemma TickAlternates(tr: Trace, t: Timing, now: real, det: map<Channel, Detect>)
    requires TimingOk(t) && Aligned(tr.s.noteQ, tr.s.strumQ, tr.s.frets, t) && tr.s.enabled && Alternating(tr)
    requires |Tick(tr.s, t, now, det).1| <= 1
    ensures Alternating(Next(tr, t, At(now, det)))
  {
    TickIsPass(tr.s, t, now, det);
    AlternatesOn(tr, Next(tr, t, At(now, det)), Tick(tr.s, t, now, det).1);
  }

  lemma TickStep(tr: Trace, t: Timing, now: real, det: map<Channel, Detect>, last: real)
    requires TimingOk(t) && Ready(tr.s, t, last) && (tr.s.strumQ == [] || now <= last + t.pulse) && tr.s.enabled
    requires OncePerChord(tr) && OwnFrets(tr.outcomes) && Alternating(tr)
    ensures var tr' := Next(tr, t, At(now, det));
            OncePerChord(tr') && OwnFrets(tr'.outcomes) && Alternating(tr')
  {
    StrumFindsItsFrets(tr.s, t, last, now, det);
    TickOncePerChord(tr, t, now, det);
    TickAlternates(tr, t, now, det);
  }

  lemma DisableStep(tr: Trace, t: Timing)
    requires OncePerChord(tr) && OwnFrets(tr.outcomes) && Alternating(tr)
    ensures var tr' := Next(tr, t, Enable(false));
            OncePerChord(tr') && OwnFrets(tr'.outcomes) && Alternating(tr')
  {
    var tr' := Next(tr, t, Enable(false));
    forall i | 0 <= i <= |tr.outcomes|
      ensures Strums(tr'.outcomes, i) == Strums(tr.outcomes, i)
    {
      StrumsPrefix(tr'.outcomes, tr.outcomes, i);
    }
    NoStrums(tr'.outcomes, |tr.outcomes|, |tr'.outcomes|);
  }

  /** Before the first tick the queues are empty, so any earlier time will do as the last one. */
  function LastOr(tr: Trace, now: real): real { if tr.last.Some? then tr.last.value else now }

  ghost predicate RunOk(tr: Trace, t: Timing)
  {
    && Ready(tr.s, t, LastOr(tr, 0.0)) && (tr.last == None ==> tr.s.strumQ == [])
    && OncePerChord(tr) && OwnFrets(tr.outcomes) && Alternating(tr)
  }

  lemma RunStep(tr: Trace, t: Timing, input: Input)
    requires TimingOk(t) && RunOk(tr, t) && InStep(tr, t, input)
    ensures RunOk(Next(tr, t, input), t)
  {
    match input {
      case At(now, det) =>
        var last := LastOr(tr, now);
        assert Ready(tr.s, t, last);
        if tr.s.enabled {
          TickKeepsReady(tr.s, t, now, det);
          TickStep(tr, t, now, det, last);
        }
      case Enable(on) =>
        if !on { DisableStep(tr, t); } else { assert tr.outcomes + [] == tr.outcomes; }
    }
  }

  /** For every paced sequence of ticks and enables from power-up: every strum fires with
    * exactly its own chord fretted; every queued chord is strummed once, in commit order,
    * or discarded by a disable, or still queued; and strums alternate direction. */
  lemma {:induction false} StrumRunsAreSafe(t: Timing, inputs: seq<Input>)
    requires TimingOk(t) && Paced(t, inputs)
    ensures RunOk(Run(t, inputs), t)
  {
    if inputs != [] {
      StrumRunsAreSafe(t, inputs[..|inputs| - 1]);
      RunStep(Run(t, inputs[..|inputs| - 1]), t, inputs[|inputs| - 1]);
    }
  }

  // ----- a run that is not paced -----

  /** Press counters of the two channels used below, as a detector reports them. */
  function Counters(green: int, red: int): map<Channel, Detect>
  {
    map[Green := Detect(false, Some(green)), Red := Detect(false, Some(red))]
  }

  function CounterOf(green: int, red: int, ch: Channel): int
  {
    if ch == Green then green else if ch == Red then red else 0
  }

  ghost predicate Seen(s: Sched, green: int, red: int)
  {
    s.prevPressed == {} && forall ch: Channel :: CountOf(s.prevCount, ch) == CounterOf(green, red, ch)
  }

  lemma CounterState(green: int, red: int, ch: Channel)
    ensures var d := StateOf(Counters(green, red), ch);
      !d.pressed && d.pressCount == (if ch == Green then Some(green) else if ch == Red then Some(red) else None)
  {
  }

  lemma CounterEdge(s: Sched, g: int, r: int, green: int, red: int, ch: Channel)
    requires Seen(s, g, r)
    ensures PressEdge(s, Counters(green, red), ch) <==> ch in Changed(g, r, green, red)
    ensures !ReleaseEdge(s, Counters(green, red), ch)
  {
    CounterState(green, red, ch);
    assert CountOf(s.prevCount, ch) == CounterOf(g, r, ch);
  }

  lemma CounterKept(s: Sched, g: int, r: int, green: int, red: int, ch: Channel)
    requires Seen(s, g, r)
    ensures CountOf(NewCounts(s, Counters(green, red)), ch) == CounterOf(green, red, ch)
  {
    CounterState(green, red, ch);
    assert CountOf(s.prevCount, ch) == CounterOf(g, r, ch);
  }

  lemma CounterMemory(s: Sched, g: int, r: int, green: int, red: int)
    requires Seen(s, g, r)
    ensures Seen(Remember(s, Counters(green, red)), green, red)
  {
    forall ch: Channel
      ensures CountOf(NewCounts(s, Counters(green, red)), ch) == CounterOf(green, red, ch)
    {
      CounterKept(s, g, r, green, red, ch);
    }
    forall ch: Channel
      ensures !StateOf(Counters(green, red), ch).pressed
    {
      CounterState(green, red, ch);
    }
  }

  lemma CounterEdges(s: Sched, g: int, r: int, green: int, red: int)
    requires Seen(s, g, r)
    ensures Presses(s, Counters(green, red)) == Changed(g, r, green, red) && Releases(s, Counters(green, red)) == {}
  {
    forall ch: Channel
      ensures PressEdge(s, Counters(green, red), ch) <==> ch in Changed(g, r, green, red)
      ensures !ReleaseEdge(s, Counters(green, red), ch)
    {
      CounterEdge(s, g, r, green, red, ch);
    }
  }

  /** Edge detection on counters: a changed counter is a press, and nothing is ever released. */
  lemma SenseCounters(s: Sched, t: Timing, now: real, g: int, r: int, green: int, red: int)
    requires Seen(s, g, r)
    ensures var p := Sense(s, t, now, Counters(green, red));
      && Seen(p, green, red)
      && p == Defer(Gather(Remember(s, Counters(green, red)), now, Changed(g, r, green, red)), now + t.delay, {})
  {
    CounterMemory(s, g, r, green, red);
    CounterEdges(s, g, r, green, red);
  }

  function Changed(g: int, r: int, green: int, red: int): Mask
  {
    (if g != green then {Green} else {}) + (if r != red then {Red} else {})
  }

  /** Everything of a state that the ticks below depend on. */
  ghost predicate Looks(s: Sched, green: int, red: int, open: bool, start: real, mask: Mask,
                        notes: seq<Pending>, strums: seq<Pending>)
  {
    && s.enabled && !s.strumUp && Seen(s, green, red)
    && s.chordOpen == open && (open ==> s.chordStart == start && s.chordMask == mask)
    && s.noteQ == notes && s.strumQ == strums
  }

  ghost predicate NothingDue(q: seq<Pending>, now: real) { q != [] ==> now < q[0].at }

  /** A tick that opens a chord. */
  lemma OpeningTick(s: Sched, t: Timing, now: real, g: int, r: int, green: int, red: int, notes: seq<Pending>, strums: seq<Pending>)
    requires Looks(s, g, r, false, 0.0, {}, notes, strums) && Changed(g, r, green, red) != {} && t.window > 0.0
    requires NothingDue(notes, now) && NothingDue(strums, now)
    ensures var (s', log) := Tick(s, t, now, Counters(green, red));
      Looks(s', green, red, true, now, Changed(g, r, green, red), notes, strums) && log == []
  {
    SenseCounters(s, t, now, g, r, green, red);
  }

  /** A tick that commits the open chord. */
  lemma CommittingTick(s: Sched, t: Timing, now: real, green: int, red: int, start: real, mask: Mask,
                       notes: seq<Pending>, strums: seq<Pending>, note: Pending, strum: Pending)
    requires Looks(s, green, red, true, start, mask, notes, strums) && now - start >= t.window
    requires |notes| < FIFO_CAP && |strums| < FIFO_CAP
    requires var c := ChordCommit(s, t, now); c.noteQ == notes + [note] && c.strumQ == strums + [strum]
    requires NothingDue(notes + [note], now) && NothingDue(strums + [strum], now)
    ensures var (s', log) := Tick(s, t, now, Counters(green, red));
      Looks(s', green, red, false, 0.0, {}, notes + [note], strums + [strum]) && log == []
  {
    SenseCounters(s, t, now, green, red, green, red);
  }

  /** The default timing with a chord window of 20: delay, early, pulse and window in milliseconds. */
  const DEFAULT_TIMING := Timing(220.0, 50.0, 50.0, 20.0)

  /** Power-up, then Green pressed at 0 and Red at 30, each committed 20 later, then no tick till 320. */
  const LATE_RUN: seq<Input> :=
    [Enable(true), At(0.0, Counters(1, 0)), At(20.0, Counters(1, 0)), At(30.0, Counters(1, 1)),
     At(50.0, Counters(1, 1)), At(320.0, Counters(1, 1))]

  lemma RunOn(t: Timing, inputs: seq<Input>, n: nat)
    requires n < |inputs|
    ensures Run(t, inputs[..n + 1]) == Next(Run(t, inputs[..n]), t, inputs[n])
  {
    assert inputs[..n + 1][..n] == inputs[..n];
  }

  /** Nothing has happened to any chord yet, and the state looks so. */
  ghost predicate Waits(tr: Trace, green: int, red: int, open: bool, start: real, mask: Mask,
                        notes: seq<Pending>, strums: seq<Pending>)
  {
    tr.outcomes == [] && Looks(tr.s, green, red, open, start, mask, notes, strums)
  }

  lemma OpeningStep(tr: Trace, t: Timing, now: real, g: int, r: int, green: int, red: int, notes: seq<Pending>, strums: seq<Pending>)
    requires Waits(tr, g, r, false, 0.0, {}, notes, strums) && Changed(g, r, green, red) != {} && t.window > 0.0
    requires NothingDue(notes, now) && NothingDue(strums, now)
    ensures Waits(Next(tr, t, At(now, Counters(green, red))), green, red, true, now, Changed(g, r, green, red), notes, strums)
  {
    OpeningTick(tr.s, t, now, g, r, green, red, notes, strums);
  }

  lemma CommittingStep(tr: Trace, t: Timing, now: real, green: int, red: int, start: real, mask: Mask,
                       notes: seq<Pending>, strums: seq<Pending>, note: Pending, strum: Pending)
    requires Waits(tr, green, red, true, start, mask, notes, strums) && now - start >= t.window
    requires |notes| < FIFO_CAP && |strums| < FIFO_CAP
    requires var c := ChordCommit(tr.s, t, now); c.noteQ == notes + [note] && c.strumQ == strums + [strum]
    requires NothingDue(notes + [note], now) && NothingDue(strums + [strum], now)
    ensures Waits(Next(tr, t, At(now, Counters(green, red))), green, red, false, 0.0, {}, notes + [note], strums + [strum])
  {
    CommittingTick(tr.s, t, now, green, red, start, mask, notes, strums, note, strum);
  }

  lemma StartsEmpty(t: Timing)
    ensures Waits(Run(t, LATE_RUN[..1]), 0, 0, false, 0.0, {}, [], [])
  {
    RunOn(t, LATE_RUN, 0);
    assert Run(t, LATE_RUN[..0]).s == IDLE;
  }

  /** Green pressed at 0 is committed at 20: fretted at 190, strummed at 240. */
  lemma GreenQueued(t: Timing, tr: Trace)
    requires t == DEFAULT_TIMING && Waits(tr, 0, 0, false, 0.0, {}, [], [])
    ensures var begun := Next(tr, t, At(0.0, Counters(1, 0)));
      Waits(Next(begun, t, At(20.0, Counters(1, 0))), 1, 0, false, 0.0, {}, [Pending({Green}, 190.0)], [Pending({Green}, 240.0)])
  {
    var begun := Next(tr, t, At(0.0, Counters(1, 0)));
    OpeningStep(tr, t, 0.0, 0, 0, 1, 0, [], []);
    CommittingStep(begun, t, 20.0, 1, 0, 0.0, {Green}, [], [], Pending({Green}, 190.0), Pending({Green}, 240.0));
  }

  /** Red pressed at 30 is committed at 50, pushed back behind Green: fretted at 290, strummed at 340. */
  lemma RedQueued(t: Timing, tr: Trace)
    requires t == DEFAULT_TIMING
    requires Waits(tr, 1, 0, false, 0.0, {}, [Pending({Green}, 190.0)], [Pending({Green}, 240.0)])
    ensures var begun := Next(tr, t, At(30.0, Counters(1, 1)));
      Waits(Next(begun, t, At(50.0, Counters(1, 1))), 1, 1, false, 0.0, {},
            [Pending({Green}, 190.0), Pending({Red}, 290.0)], [Pending({Green}, 240.0), Pending({Red}, 340.0)])
  {
    var notes, strums := [Pending({Green}, 190.0)], [Pending({Green}, 240.0)];
    var begun := Next(tr, t, At(30.0, Counters(1, 1)));
    OpeningStep(tr, t, 30.0, 1, 0, 1, 1, notes, strums);
    CommittingStep(begun, t, 50.0, 1, 1, 30.0, {Red}, notes, strums, Pending({Red}, 290.0), Pending({Red}, 340.0));
  }

  lemma TwoSteps(t: Timing, inputs: seq<Input>, n: nat, a: Input, b: Input)
    requires n + 2 <= |inputs| && inputs[n] == a && inputs[n + 1] == b
    ensures Run(t, inputs[..n + 2]) == Next(Next(Run(t, inputs[..n]), t, a), t, b)
  {
    RunOn(t, inputs, n);
    RunOn(t, inputs, n + 1);
  }

  lemma GreenInRun(t: Timing)
    requires t == DEFAULT_TIMING
    ensures Waits(Run(t, LATE_RUN[..3]), 1, 0, false, 0.0, {}, [Pending({Green}, 190.0)], [Pending({Green}, 240.0)])
  {
    StartsEmpty(t);
    TwoSteps(t, LATE_RUN, 1, At(0.0, Counters(1, 0)), At(20.0, Counters(1, 0)));
    GreenQueued(t, Run(t, LATE_RUN[..1]));
  }

  lemma BothQueued(t: Timing)
    requires t == DEFAULT_TIMING
    ensures Waits(Run(t, LATE_RUN[..5]), 1, 1, false, 0.0, {}, [Pending({Green}, 190.0), Pending({Red}, 290.0)],
                  [Pending({Green}, 240.0), Pending({Red}, 340.0)])
  {
    GreenInRun(t);
    TwoSteps(t, LATE_RUN, 3, At(30.0, Counters(1, 1)), At(50.0, Counters(1, 1)));
    RedQueued(t, Run(t, LATE_RUN[..3]));
  }

  /** Waiting queues are what the passes of the next tick start from. */
  lemma WaitsPrimed(s: Sched, t: Timing, now: real, green: int, red: int, notes: seq<Pending>, strums: seq<Pending>)
    requires Looks(s, green, red, false, 0.0, {}, notes, strums)
    ensures Primed(s, t, now, Counters(green, red)).noteQ == notes && Primed(s, t, now, Counters(green, red)).strumQ == strums
  {
    SenseCounters(s, t, now, green, red, green, red);
  }

  /** A tick at 320 finds Green's strum due and Red fretted. */
  lemma LastTick(t: Timing, tr: Trace)
    requires t == DEFAULT_TIMING
    requires Waits(tr, 1, 1, false, 0.0, {}, [Pending({Green}, 190.0), Pending({Red}, 290.0)],
                   [Pending({Green}, 240.0), Pending({Red}, 340.0)])
    ensures Next(tr, t, At(320.0, Counters(1, 1))).outcomes == [Strummed({Green}, {Red}, true)]
  {
    WaitsPrimed(tr.s, t, 320.0, 1, 1, tr.s.noteQ, tr.s.strumQ);
    LateTickMisfrets(tr.s, t, 320.0, Counters(1, 1));
  }

  /** With the default timing that run sounds the Green chord on Red's frets: its last two ticks are
    * 270 apart with strums queued. */
  lemma SlowTicksMisfret(t: Timing)
    requires t == DEFAULT_TIMING
    ensures Run(t, LATE_RUN).outcomes == [Strummed({Green}, {Red}, true)]
  {
    BothQueued(t);
    LastTick(t, Run(t, LATE_RUN[..5]));
    RunOn(t, LATE_RUN, 5);
    assert LATE_RUN[..6] == LATE_RUN;
  }
}
