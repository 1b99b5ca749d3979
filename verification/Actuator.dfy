/** The strum scheduler (actuator.py): chords are collected over a window, then fretted and
  * strummed from two FIFOs of deadlines; releases are deferred while a chord needs them. */
module Actuator {
  import opened Wrappers

  datatype Channel = Green | Red | Yellow | Blue | Orange

  const CHANNELS: seq<Channel> := [Green, Red, Yellow, Blue, Orange]

  /** A fret bitmask, or any other flag per channel, as the set of channels that have it. */
  type Mask = set<Channel>

  lemma ChannelsDistinct()
    ensures forall j, k | 0 <= j < k < |CHANNELS| :: CHANNELS[j] != CHANNELS[k]
  {
  }

  /** A set with every listed channel has every channel. */
  lemma AllListed(seen: set<Channel>)
    requires forall j | 0 <= j < |CHANNELS| :: CHANNELS[j] in seen
    ensures forall ch: Channel :: ch in seen
  {
    forall ch: Channel
      ensures ch in seen
    {
      match ch
      case Green => assert CHANNELS[0] == ch;
      case Red => assert CHANNELS[1] == ch;
      case Yellow => assert CHANNELS[2] == ch;
      case Blue => assert CHANNELS[3] == ch;
      case Orange => assert CHANNELS[4] == ch;
    }
  }

  const FIFO_CAP := 16

  datatype Timing = Timing(delay: real, early: real, pulse: real, window: real)

  /** `_PendingNote` and `_PendingStrum`: a chord and its deadline. */
  datatype Pending = Pending(mask: Mask, at: real)

  /** One channel of `detect_state`. */
  datatype Detect = Detect(pressed: bool, pressCount: Option<int>)

  /** What became of a chord that had been queued. */
  datatype Outcome = Strummed(mask: Mask, frets: Mask, up: bool) | Discarded(mask: Mask)

  datatype Sched = Sched(
    enabled: bool,
    noteQ: seq<Pending>, strumQ: seq<Pending>,
    releaseAt: map<Channel, real>, releasePending: Mask,
    chordOpen: bool, chordStart: real, chordMask: Mask,
    frets: Mask, strumActive: bool, strumReleaseAt: real, strumUp: bool,
    prevPressed: Mask, prevCount: map<Channel, int>)

  const IDLE := Sched(false, [], [], map[], {}, false, 0.0, {}, {}, false, 0.0, false, {}, map[])

  function StateOf(det: map<Channel, Detect>, ch: Channel): Detect
  {
    if ch in det then det[ch] else Detect(false, None)
  }

  /** A press edge: a changed press counter if there is one, else released -> pressed. */
  predicate PressEdge(s: Sched, det: map<Channel, Detect>, ch: Channel)
  {
    var d := StateOf(det, ch);
    if d.pressCount.Some? then d.pressCount.value != CountOf(s.prevCount, ch)
    else d.pressed && ch !in s.prevPressed
  }

  predicate ReleaseEdge(s: Sched, det: map<Channel, Detect>, ch: Channel)
  {
    !StateOf(det, ch).pressed && ch in s.prevPressed
  }

  /** The last counter seen per channel; a channel without an entry counts as 0. */
  function CountOf(counts: map<Channel, int>, ch: Channel): int { if ch in counts then counts[ch] else 0 }

  function NewCounts(s: Sched, det: map<Channel, Detect>): map<Channel, int>
  {
    map ch: Channel | ch in s.prevCount || StateOf(det, ch).pressCount.Some? ::
      if StateOf(det, ch).pressCount.Some? then StateOf(det, ch).pressCount.value else s.prevCount[ch]
  }

  function Presses(s: Sched, det: map<Channel, Detect>): Mask { set ch: Channel | PressEdge(s, det, ch) }

  function Releases(s: Sched, det: map<Channel, Detect>): Mask { set ch: Channel | ReleaseEdge(s, det, ch) }

  /** Per-channel edge memory. */
  function Remember(s: Sched, det: map<Channel, Detect>): Sched
  {
    s.(prevPressed := (set ch: Channel | StateOf(det, ch).pressed), prevCount := NewCounts(s, det))
  }

  /** Presses join the open chord, or open one. */
  function Gather(s: Sched, now: real, presses: Mask): Sched
  {
    if presses == {} then s
    else s.(chordOpen := true,
            chordStart := if s.chordOpen then s.chordStart else now,
            chordMask := (if s.chordOpen then s.chordMask else {}) + presses)
  }

  /** Releases get a deadline and wait for it. */
  function Defer(s: Sched, deadline: real, releases: Mask): Sched
  {
    s.(releaseAt := map ch: Channel | ch in releases || ch in s.releaseAt ::
                       if ch in releases then deadline else s.releaseAt[ch],
       releasePending := s.releasePending + releases)
  }

  /** Edge detection, the open chord and the deferred release deadlines. */
  function Sense(s: Sched, t: Timing, now: real, det: map<Channel, Detect>): Sched
  {
    Defer(Gather(Remember(s, det), now, Presses(s, det)), now + t.delay, Releases(s, det))
  }

  /** `_chord_commit`: queues the open chord, keeping it clear of the previous strum pulse;
    * a full FIFO loses it. */
  function ChordCommit(s: Sched, t: Timing, now: real): Sched
  {
    var closed := s.(chordOpen := false, chordMask := {});
    if |s.noteQ| >= FIFO_CAP || |s.strumQ| >= FIFO_CAP then closed else
    var assertAt, strumAt := now + t.delay - t.early, now + t.delay;
    var push := s.strumQ != [] && assertAt < s.strumQ[|s.strumQ| - 1].at + t.pulse;
    var assertAt' := if push then s.strumQ[|s.strumQ| - 1].at + t.pulse else assertAt;
    var strumAt' := if push then assertAt' + t.early else strumAt;
    closed.(noteQ := s.noteQ + [Pending(s.chordMask, assertAt')],
            strumQ := s.strumQ + [Pending(s.chordMask, strumAt')])
  }

  predicate CommitDue(s: Sched, t: Timing, now: real) { s.chordOpen && now - s.chordStart >= t.window }

  /** The chord the tick queues, if any. */
  function Committed(s: Sched, t: Timing, now: real): seq<Mask>
  {
    if CommitDue(s, t, now) && |s.noteQ| < FIFO_CAP && |s.strumQ| < FIFO_CAP then [s.chordMask] else []
  }

  function Settle(s: Sched, t: Timing, now: real): Sched
  {
    var s1 := if CommitDue(s, t, now) then ChordCommit(s, t, now) else s;
    if s1.strumActive && now >= s1.strumReleaseAt then s1.(strumActive := false) else s1
  }

  /** The loop of `_process_notes`: every due note replaces the active frets. */
  function NoteLoop(q: seq<Pending>, frets: Mask, now: real): (seq<Pending>, Mask)
  {
    if q == [] || now < q[0].at then (q, frets) else NoteLoop(q[1..], q[0].mask, now)
  }

  function ProcessNotes(s: Sched, now: real): Sched
  {
    var (q, frets) := NoteLoop(s.noteQ, s.frets, now);
    s.(noteQ := q, frets := frets)
  }

  /** The loop of `_process_strums`: every due strum starts a pulse in the other
    * direction; its outcome, with the frets it finds, is appended to `log`. */
  function StrumLoop(q: seq<Pending>, up: bool, frets: Mask, now: real, log: seq<Outcome>): (seq<Pending>, bool, seq<Outcome>)
  {
    if q == [] || now < q[0].at then (q, up, log)
    else StrumLoop(q[1..], !up, frets, now, log + [Strummed(q[0].mask, frets, !up)])
  }

  function ProcessStrums(s: Sched, t: Timing, now: real): (Sched, seq<Outcome>)
  {
    var (q, up, log) := StrumLoop(s.strumQ, s.strumUp, s.frets, now, []);
    var fired := s.strumQ != [] && now >= s.strumQ[0].at;
    (s.(strumQ := q, strumUp := up, strumActive := s.strumActive || fired,
        strumReleaseAt := if fired then now + t.pulse else s.strumReleaseAt), log)
  }

  predicate QueuedFor(q: seq<Pending>, ch: Channel) { exists i | 0 <= i < |q| :: ch in q[i].mask }

  /** A pending release takes effect: due, not pressed again, no queued chord needs the fret. */
  predicate ReleaseNow(s: Sched, now: real, det: map<Channel, Detect>, ch: Channel)
  {
    && ch in s.releasePending
    && ch in s.releaseAt && now >= s.releaseAt[ch]
    && !StateOf(det, ch).pressed
    && !QueuedFor(s.noteQ, ch) && !QueuedFor(s.strumQ, ch)
  }

  /** `_process_releases`. */
  function ProcessReleases(s: Sched, now: real, det: map<Channel, Detect>): Sched
  {
    var done := set ch: Channel | ReleaseNow(s, now, det, ch);
    s.(frets := s.frets - done, releasePending := s.releasePending - done)
  }

  /** `update` while enabled. */
  function Tick(s: Sched, t: Timing, now: real, det: map<Channel, Detect>): (Sched, seq<Outcome>)
  {
    var (s', log) := ProcessStrums(ProcessNotes(Settle(Sense(s, t, now, det), t, now), now), t, now);
    (ProcessReleases(s', now, det), log)
  }

  function Update(s: Sched, t: Timing, now: real, det: map<Channel, Detect>): (Sched, seq<Outcome>)
  {
    if !s.enabled then (s, []) else Tick(s, t, now, det)
  }

  /** `_release_all`. */
  function ReleaseAll(s: Sched): Sched
  {
    s.(frets := {}, strumActive := false, noteQ := [], strumQ := [], chordOpen := false, chordMask := {},
       releasePending := {})
  }

  function SetEnabled(s: Sched, on: bool): Sched
  {
    if on then s.(enabled := true) else ReleaseAll(s.(enabled := false))
  }

  /** The five fret bits as a number. */
  function FretBits(mask: Mask): nat
  {
    (if Green in mask then 1 else 0) + (if Red in mask then 2 else 0) + (if Yellow in mask then 4 else 0)
      + (if Blue in mask then 8 else 0) + (if Orange in mask then 16 else 0)
  }

  /** The 7-bit output mask. */
  function Output(s: Sched): nat
  {
    if !s.enabled then 0 else
    FretBits(s.frets) + (if s.strumActive then (if s.strumUp then 64 else 32) else 0)
  }

  // ----- the object -----

  class Actuator {
    const timing: Timing
    var enabled: bool
    var noteQ: seq<Pending>
    var strumQ: seq<Pending>
    var releaseAt: map<Channel, real>
    var releasePending: Mask
    var chordOpen: bool
    var chordStart: real
    var chordMask: Mask
    var fretsActive: Mask
    var strumActive: bool
    var strumReleaseAt: real
    var strumDirection: bool
    var prevPressed: Mask
    var prevPressCount: map<Channel, int>
    var outputMask: nat

    function Now(): Sched
      reads this
    {
      Sched(enabled, noteQ, strumQ, releaseAt, releasePending, chordOpen, chordStart, chordMask,
            fretsActive, strumActive, strumReleaseAt, strumDirection, prevPressed, prevPressCount)
    }

    constructor (timing: Timing)
      ensures Now() == IDLE && this.timing == timing && outputMask == 0
    {
      enabled, noteQ, strumQ, releaseAt, releasePending := false, [], [], map[], {};
      this.timing := timing;
      chordOpen, chordStart, chordMask := false, 0.0, {};
      fretsActive, strumActive, strumReleaseAt, strumDirection := {}, false, 0.0, false;
      prevPressed, prevPressCount, outputMask := {}, map[], 0;
    }

    /** `set_enabled`. */
    method SetEnabledFlag(on: bool)
      modifies this
      ensures Now() == SetEnabled(old(Now()), on)
      ensures !on ==> outputMask == 0
    {
      enabled := on;
      if !on { ReleaseEverything(); }
    }

    /** `_release_all`. */
    method ReleaseEverything()
      modifies this
      ensures Now() == ReleaseAll(old(Now())) && outputMask == 0
    {
      DropQueued();
      fretsActive := {};
      strumActive := false;
      outputMask := 0;
    }

    method DropQueued()
      modifies this`noteQ, this`strumQ, this`chordOpen, this`chordMask, this`releasePending
      ensures noteQ == [] && strumQ == [] && !chordOpen && chordMask == {} && releasePending == {}
    {
      noteQ := [];
      strumQ := [];
      chordOpen := false;
      chordMask := {};
      releasePending := {};
    }

    /** `update`: one tick. */
    method UpdateTick(now: real, det: map<Channel, Detect>) returns (mask: nat, ghost outcomes: seq<Outcome>)
      modifies this
      ensures (Now(), outcomes) == Update(old(Now()), timing, now, det)
      ensures mask == outputMask == Output(Now())
    {
      if !enabled {
        outputMask := 0;
        return 0, [];
      }
      outcomes := RunPasses(now, det);
      mask := FretBits(fretsActive);
      if strumActive {
        mask := mask + if strumDirection then 64 else 32;
      }
      outputMask := mask;
    }

    /** Sensing, the queues and the releases, in this order. */
    method RunPasses(now: real, det: map<Channel, Detect>) returns (ghost outcomes: seq<Outcome>)
      modifies this
      ensures (Now(), outcomes) == Tick(old(Now()), timing, now, det)
    {
      SenseInput(now, det);
      outcomes := RunQueues(now);
      RunReleases(now, det);
    }

    method SenseInput(now: real, det: map<Channel, Detect>)
      modifies this
      ensures Now() == Sense(old(Now()), timing, now, det)
    {
      var presses, releases := SenseEdges(now, det);
      GatherPresses(now, presses);
      DeferReleases(now + timing.delay, releases);
    }

    /** Chord commit, strum timeout and the two queues. */
    method RunQueues(now: real) returns (ghost outcomes: seq<Outcome>)
      modifies this
      ensures (Now(), outcomes)
           == ProcessStrums(ProcessNotes(Settle(old(Now()), timing, now), now), timing, now)
    {
      if chordOpen && now - chordStart >= timing.window {
        CommitChord(now);
      }
      if strumActive && now >= strumReleaseAt {
        strumActive := false;
      }
      RunNotes(now);
      outcomes := RunStrums(now);
    }

    /** The edge loop of `update`. */
    method SenseEdges(now: real, det: map<Channel, Detect>) returns (presses: Mask, releases: Mask)
      modifies this`prevPressed, this`prevPressCount
      ensures Now() == Remember(old(Now()), det)
      ensures presses == Presses(old(Now()), det) && releases == Releases(old(Now()), det)
    {
      var pressed, counts;
      presses, releases, pressed, counts := EdgeLoop(Now(), det);
      prevPressed := pressed;
      prevPressCount := counts;
    }

    method GatherPresses(now: real, presses: Mask)
      modifies this`chordOpen, this`chordStart, this`chordMask
      ensures Now() == Gather(old(Now()), now, presses)
    {
      if presses != {} {
        if !chordOpen {
          chordOpen := true;
          chordStart := now;
          chordMask := {};
        }
        chordMask := chordMask + presses;
      }
    }

    method DeferReleases(deadline: real, releases: Mask)
      modifies this`releaseAt, this`releasePending
      ensures Now() == Defer(old(Now()), deadline, releases)
    {
      var deadlines, pending := DeferLoop(Now(), deadline, releases);
      releaseAt := deadlines;
      releasePending := pending;
    }

    /** `_chord_commit`. */
    method CommitChord(now: real)
      modifies this`noteQ, this`strumQ, this`chordOpen, this`chordMask
      ensures Now() == ChordCommit(old(Now()), timing, now)
    {
      if |noteQ| >= FIFO_CAP || |strumQ| >= FIFO_CAP {
        chordOpen := false;
        chordMask := {};
        return;
      }
      var assertAt := now + timing.delay - timing.early;
      var strumAt := now + timing.delay;
      if strumQ != [] {
        var earliest := strumQ[|strumQ| - 1].at + timing.pulse;
        if assertAt < earliest {
          assertAt := earliest;
          strumAt := assertAt + timing.early;
        }
      }
      noteQ := noteQ + [Pending(chordMask, assertAt)];
      strumQ := strumQ + [Pending(chordMask, strumAt)];
      chordOpen := false;
      chordMask := {};
    }

    /** `_process_notes`. */
    method RunNotes(now: real)
      modifies this`noteQ, this`fretsActive
      ensures Now() == ProcessNotes(old(Now()), now)
    {
      while noteQ != [] && now >= noteQ[0].at
        invariant NoteLoop(noteQ, fretsActive, now) == NoteLoop(old(noteQ), old(fretsActive), now)
        decreases |noteQ|
      {
        var frets := ApplyNote(fretsActive, noteQ[0].mask);
        fretsActive := frets;
        noteQ := noteQ[1..];
      }
    }

    /** `_process_strums`. */
    method RunStrums(now: real) returns (ghost outcomes: seq<Outcome>)
      modifies this`strumQ, this`strumActive, this`strumDirection, this`strumReleaseAt
      ensures (Now(), outcomes) == ProcessStrums(old(Now()), timing, now)
    {
      outcomes := [];
      while strumQ != [] && now >= strumQ[0].at
        invariant StrumLoop(strumQ, strumDirection, fretsActive, now, outcomes)
               == StrumLoop(old(strumQ), old(strumDirection), fretsActive, now, [])
        invariant strumQ == old(strumQ) ==> strumActive == old(strumActive) && strumReleaseAt == old(strumReleaseAt)
        invariant strumQ != old(strumQ) ==>
            old(strumQ) != [] && now >= old(strumQ)[0].at && strumActive && strumReleaseAt == now + timing.pulse
        invariant |strumQ| <= |old(strumQ)|
        decreases |strumQ|
      {
        outcomes := outcomes + [Strummed(strumQ[0].mask, fretsActive, !strumDirection)];
        strumActive := true;
        strumDirection := !strumDirection;
        strumReleaseAt := now + timing.pulse;
        strumQ := strumQ[1..];
      }
    }

    /** `_process_releases`. */
    method RunReleases(now: real, det: map<Channel, Detect>)
      modifies this`fretsActive, this`releasePending
      ensures Now() == ProcessReleases(old(Now()), now, det)
    {
      var frets, pending := ReleaseLoop(Now(), now, det);
      fretsActive := frets;
      releasePending := pending;
    }
  }

  // ----- the per-channel loops, on a snapshot of the fields -----

  /** The assert/deassert loop of `_process_notes`. */
  method ApplyNote(active: Mask, mask: Mask) returns (frets: Mask)
    ensures frets == mask
  {
    ChannelsDistinct();
    frets := active;
    ghost var seen: Mask := {};
    for i := 0 to |CHANNELS|
      invariant forall j | 0 <= j < |CHANNELS| :: CHANNELS[j] in seen <==> j < i
      invariant forall ch: Channel :: ch in frets <==> if ch in seen then ch in mask else ch in active
    {
      var ch := CHANNELS[i];
      var need, have := ch in mask, ch in frets;
      seen := seen + {ch};
      if need && !have {
        frets := frets + {ch};
      } else if !need && have {
        frets := frets - {ch};
      }
    }
    AllListed(seen);
  }

  method EdgeLoop(s: Sched, det: map<Channel, Detect>)
      returns (presses: Mask, releases: Mask, pressed: Mask, counts: map<Channel, int>)
    ensures presses == Presses(s, det) && releases == Releases(s, det)
    ensures pressed == Remember(s, det).prevPressed && counts == NewCounts(s, det)
  {
    ChannelsDistinct();
    pressed, counts := s.prevPressed, s.prevCount;
    presses, releases := {}, {};
    ghost var seen: Mask := {};
    for i := 0 to |CHANNELS|
      invariant forall j | 0 <= j < |CHANNELS| :: CHANNELS[j] in seen <==> j < i
      invariant presses == set ch: Channel | ch in seen && PressEdge(s, det, ch)
      invariant releases == set ch: Channel | ch in seen && ReleaseEdge(s, det, ch)
      invariant forall ch: Channel ::
          ch in pressed <==> if ch in seen then StateOf(det, ch).pressed else ch in s.prevPressed
      invariant forall ch: Channel ::
          ch in counts <==> ch in s.prevCount || (ch in seen && StateOf(det, ch).pressCount.Some?)
      invariant forall ch: Channel | ch in counts ::
          counts[ch] == if ch in seen && StateOf(det, ch).pressCount.Some?
                        then StateOf(det, ch).pressCount.value else s.prevCount[ch]
    {
      var ch := CHANNELS[i];
      var d := StateOf(det, ch);
      var wasPressed := ch in pressed;
      if d.pressCount.Some? {
        if d.pressCount.value != CountOf(counts, ch) { presses := presses + {ch}; }
        counts := counts[ch := d.pressCount.value];
      } else if d.pressed && !wasPressed {
        presses := presses + {ch};
      }
      if !d.pressed && wasPressed { releases := releases + {ch}; }
      pressed := if d.pressed then pressed + {ch} else pressed - {ch};
      seen := seen + {ch};
    }
    AllListed(seen);
  }

  method DeferLoop(s: Sched, deadline: real, releases: Mask) returns (deadlines: map<Channel, real>, pending: Mask)
    ensures deadlines == Defer(s, deadline, releases).releaseAt
    ensures pending == Defer(s, deadline, releases).releasePending
  {
    ChannelsDistinct();
    deadlines, pending := s.releaseAt, s.releasePending;
    ghost var seen: Mask := {};
    for i := 0 to |CHANNELS|
      invariant forall j | 0 <= j < |CHANNELS| :: CHANNELS[j] in seen <==> j < i
      invariant forall ch: Channel :: ch in deadlines <==> ch in s.releaseAt || (ch in seen && ch in releases)
      invariant forall ch: Channel | ch in deadlines ::
          deadlines[ch] == if ch in seen && ch in releases then deadline else s.releaseAt[ch]
      invariant pending == s.releasePending + (seen * releases)
    {
      var ch := CHANNELS[i];
      if ch in releases {
        deadlines := deadlines[ch := deadline];
        pending := pending + {ch};
      }
      seen := seen + {ch};
    }
    AllListed(seen);
  }

  method ReleaseLoop(s: Sched, now: real, det: map<Channel, Detect>) returns (frets: Mask, pending: Mask)
    ensures frets == ProcessReleases(s, now, det).frets
    ensures pending == ProcessReleases(s, now, det).releasePending
  {
    ChannelsDistinct();
    frets, pending := s.frets, s.releasePending;
    ghost var seen: Mask := {};
    for i := 0 to |CHANNELS|
      invariant forall j | 0 <= j < |CHANNELS| :: CHANNELS[j] in seen <==> j < i
      invariant frets == s.frets - set ch: Channel | ch in seen && ReleaseNow(s, now, det, ch)
      invariant pending == s.releasePending - set ch: Channel | ch in seen && ReleaseNow(s, now, det, ch)
    {
      var ch := CHANNELS[i];
      var done := ReleaseOne(s, now, det, ch);
      if done {
        frets := frets - {ch};
        pending := pending - {ch};
      }
      seen := seen + {ch};
    }
    AllListed(seen);
  }

  /** The guards of one pass of the release loop. */
  method ReleaseOne(s: Sched, now: real, det: map<Channel, Detect>, ch: Channel) returns (done: bool)
    ensures done == ReleaseNow(s, now, det, ch)
  {
    if ch !in s.releasePending { return false; }
    if ch !in s.releaseAt || now < s.releaseAt[ch] { return false; }
    if StateOf(det, ch).pressed { return false; }
    var needed := IsQueued(s.noteQ, ch);
    if !needed { needed := IsQueued(s.strumQ, ch); }
    return !needed;
  }

  method IsQueued(q: seq<Pending>, ch: Channel) returns (needed: bool)
    ensures needed == QueuedFor(q, ch)
  {
    for i := 0 to |q|
      invariant forall j | 0 <= j < i :: ch !in q[j].mask
    {
      if ch in q[i].mask { return true; }
    }
    return false;
  }
}
