/** From key presses to chords, from chords to planned times, and from strums to pulses: the scheduler's
  * open chord, queues and strum output against the list of inputs. */
module ChordTiming {
  import opened Wrappers
  import opened Actuator
  import opened StrumSafety
  import opened InputHistory

  predicate AnyPressed(inputs: seq<Input>) { exists ch: Channel :: Pressed(inputs, ch) }

  /** The tick that opened the chord the latest tick works on: one still open before it, or its own press. */
  function Opener(t: Timing, inputs: seq<Input>): (b: Option<nat>)
    requires Ticks(inputs)
    ensures b.Some? ==> b.value < |inputs| && inputs[b.value].At?
    decreases |inputs|, 0
  {
    var before := Began(t, Front(inputs));
    if before.Some? then before else if AnyPressed(inputs) then Some(|inputs| - 1) else None
  }

  /** That chord's window is over with the latest tick. */
  predicate Closes(t: Timing, inputs: seq<Input>)
    requires Ticks(inputs)
    decreases |inputs|, 1
  {
    var b := Opener(t, inputs);
    b.Some? && Final(inputs).now - inputs[b.value].now >= t.window
  }

  /** The tick that opened the chord still open after the inputs. */
  function Began(t: Timing, inputs: seq<Input>): (b: Option<nat>)
    ensures b.Some? ==> b.value < |inputs| && inputs[b.value].At?
    decreases |inputs|, 2
  {
    if inputs == [] || Final(inputs) == Enable(false) then None
    else if !Ticks(inputs) then Began(t, Front(inputs))
    else if Closes(t, inputs) then None
    else Opener(t, inputs)
  }

  /** `ch` was pressed at the tick with index `from` or later. */
  predicate PressedSince(inputs: seq<Input>, from: nat, ch: Channel)
  {
    inputs != [] && from < |inputs| && (Pressed(inputs, ch) || PressedSince(Front(inputs), from, ch))
  }

  /** The chord that opened at `from`. */
  function Collected(inputs: seq<Input>, from: nat): Mask { set ch: Channel | PressedSince(inputs, from, ch) }

  // ----- the open chord -----

  lemma PressesAreHistory(t: Timing, inputs: seq<Input>)
    requires Ticks(inputs)
    ensures var s := Run(t, Front(inputs)).s;
      && Presses(s, Final(inputs).det) == (set ch: Channel | Pressed(inputs, ch))
      && (Presses(s, Final(inputs).det) != {} <==> AnyPressed(inputs))
  {
    var s := Run(t, Front(inputs)).s;
    forall ch: Channel
      ensures ch in Presses(s, Final(inputs).det) <==> Pressed(inputs, ch)
    {
      EdgesAreHistory(t, inputs, ch);
    }
    if ch: Channel :| Pressed(inputs, ch) { assert ch in Presses(s, Final(inputs).det); }
  }

  /** The chord after sensing is open with this start and these channels. */
  ghost predicate ChordIs(s: Sched, open: bool, start: real, mask: Mask)
  {
    s.chordOpen == open && (open ==> s.chordStart == start && s.chordMask == mask)
  }

  lemma SensedChordIs(s: Sched, t: Timing, now: real, det: map<Channel, Detect>, start: real, mask: Mask)
    requires s.chordOpen ==> s.chordStart == start && s.chordMask == mask
    requires !s.chordOpen ==> start == now && mask == {}
    ensures ChordIs(Sense(s, t, now, det), s.chordOpen || Presses(s, det) != {}, start, mask + Presses(s, det))
  {
  }

  lemma SettledChordIs(d: Sched, t: Timing, now: real, open: bool, start: real, mask: Mask)
    requires ChordIs(d, open, start, mask)
    ensures ChordIs(Settle(d, t, now), open && now - start < t.window, start, mask)
  {
  }

  lemma TickChordIs(s: Sched, t: Timing, now: real, det: map<Channel, Detect>, open: bool, start: real, mask: Mask)
    requires ChordIs(Sense(s, t, now, det), open, start, mask)
    ensures ChordIs(Tick(s, t, now, det).0, open && now - start < t.window, start, mask)
  {
    SettledChordIs(Sense(s, t, now, det), t, now, open, start, mask);
    ServingSenses(Primed(s, t, now, det), t, now);
    ReleasingSenses(Served(s, t, now, det), now, det);
    TickIsServed(s, t, now, det);
  }

  /** The open chord after the inputs, from the inputs. */
  ghost predicate ChordMatches(t: Timing, inputs: seq<Input>)
  {
    var s, b := Run(t, inputs).s, Began(t, inputs);
    s.chordOpen == b.Some? && (b.Some? ==> s.chordStart == inputs[b.value].now && s.chordMask == Collected(inputs, b.value))
  }

  lemma CollectedGrows(inputs: seq<Input>, from: nat)
    requires inputs != [] && from < |inputs|
    ensures Collected(inputs, from) ==
              (if from < |inputs| - 1 then Collected(Front(inputs), from) else {}) + (set ch: Channel | Pressed(inputs, ch))
  {
    forall ch: Channel
      ensures PressedSince(inputs, from, ch) <==> (from < |inputs| - 1 && PressedSince(Front(inputs), from, ch)) || Pressed(inputs, ch)
    {
    }
  }

  /** What the latest tick senses is the chord of the inputs. */
  lemma SensedMatches(t: Timing, inputs: seq<Input>)
    requires Ticks(inputs) && ChordMatches(t, Front(inputs))
    ensures var b := Opener(t, inputs);
            var d := Sense(Run(t, Front(inputs)).s, t, Final(inputs).now, Final(inputs).det);
      && d.chordOpen == b.Some?
      && (b.Some? ==> d.chordStart == inputs[b.value].now && d.chordMask == Collected(inputs, b.value))
  {
    var s, now, det := Run(t, Front(inputs)).s, Final(inputs).now, Final(inputs).det;
    PressesAreHistory(t, inputs);
    SensedChordIs(s, t, now, det, if s.chordOpen then s.chordStart else now, if s.chordOpen then s.chordMask else {});
    var b := Opener(t, inputs);
    if b.Some? { CollectedGrows(inputs, b.value); }
  }

  /** Without a tick nothing is pressed. */
  lemma NothingCollected(inputs: seq<Input>, from: nat)
    requires inputs != [] && !Ticks(inputs) && from < |inputs| - 1
    ensures Collected(inputs, from) == Collected(Front(inputs), from)
  {
    CollectedGrows(inputs, from);
  }

  /** The open chord consists of exactly the channels pressed since the tick that opened it. */
  lemma {:induction false} ChordIsCollected(t: Timing, inputs: seq<Input>)
    ensures ChordMatches(t, inputs)
  {
    if inputs != [] {
      ChordIsCollected(t, Front(inputs));
      RunUnfolds(t, inputs);
      EnabledIsOn(t, Front(inputs));
      var b := Began(t, Front(inputs));
      if Ticks(inputs) {
        TickMatches(t, inputs);
      } else if b.Some? {
        NothingCollected(inputs, b.value);
      }
    }
  }

  lemma TickMatches(t: Timing, inputs: seq<Input>)
    requires Ticks(inputs) && ChordMatches(t, Front(inputs))
    ensures ChordMatches(t, inputs)
  {
    var s, now, det := Run(t, Front(inputs)).s, Final(inputs).now, Final(inputs).det;
    var b := Opener(t, inputs);
    RunUnfolds(t, inputs);
    EnabledIsOn(t, Front(inputs));
    SensedMatches(t, inputs);
    if b.Some? {
      TickChordIs(s, t, now, det, true, inputs[b.value].now, Collected(inputs, b.value));
    } else {
      TickChordIs(s, t, now, det, false, 0.0, {});
    }
  }

  /** A tick queues a chord exactly when a window closes and neither FIFO is full; it is the set of
    * channels pressed since the window opened. */
  lemma CommitsCollected(t: Timing, inputs: seq<Input>)
    requires Ticks(inputs)
    ensures var before, b := Run(t, Front(inputs)), Opener(t, inputs);
      Run(t, inputs).committed == before.committed +
        (if Closes(t, inputs) && |before.s.noteQ| < 16 && |before.s.strumQ| < 16 then [Collected(inputs, b.value)] else [])
  {
    ChordIsCollected(t, Front(inputs));
    RunUnfolds(t, inputs);
    EnabledIsOn(t, Front(inputs));
    SensedMatches(t, inputs);
    SenseKeepsQueues(Run(t, Front(inputs)).s, t, Final(inputs).now, Final(inputs).det);
  }

  // ----- planned times -----

  /** A committed chord is to be fretted `early` before its strum, which comes `delay` after the commit, or
    * a pulse and `early` after the last queued strum if that is later; a full FIFO queues nothing. */
  lemma CommitPlans(s: Sched, t: Timing, now: real)
    ensures var c := ChordCommit(s, t, now);
            var frets := now + t.delay - t.early;
            var clear := if s.strumQ == [] then frets else s.strumQ[|s.strumQ| - 1].at + t.pulse;
            var at := if clear > frets then clear else frets;
            var room := |s.noteQ| < 16 && |s.strumQ| < 16;
      && c.noteQ == s.noteQ + (if room then [Pending(s.chordMask, at)] else [])
      && c.strumQ == s.strumQ + (if room then [Pending(s.chordMask, at + t.early)] else [])
      && !c.chordOpen && c.frets == s.frets && c.releaseAt == s.releaseAt && c.releasePending == s.releasePending
  {
  }

  // ----- the strum pulse -----

  /** When the strum output is to end: a pulse after the latest tick that strummed, until a tick from then on. */
  function PulseEnd(t: Timing, inputs: seq<Input>): Option<real>
  {
    if inputs == [] || Final(inputs) == Enable(false) then None
    else if !Ticks(inputs) then PulseEnd(t, Front(inputs))
    else if |Run(t, inputs).outcomes| > |Run(t, Front(inputs)).outcomes| then Some(Final(inputs).now + t.pulse)
    else
      var end := PulseEnd(t, Front(inputs));
      if end.Some? && Final(inputs).now >= end.value then None else end
  }

  lemma LoggedStrums(q: seq<Pending>, up: bool, frets: Mask, now: real)
    ensures |StrumLoop(q, up, frets, now, []).2| > 0 <==> q != [] && now >= q[0].at
  {
    StrumsPass(q, up, frets, now, []);
  }

  lemma ServedPulse(p: Sched, t: Timing, now: real)
    ensures var (m, log) := ProcessStrums(ProcessNotes(p, now), t, now);
      && m.strumActive == (p.strumActive || |log| > 0)
      && m.strumReleaseAt == (if |log| > 0 then now + t.pulse else p.strumReleaseAt)
  {
    LoggedStrums(p.strumQ, p.strumUp, NoteLoop(p.noteQ, p.frets, now).1, now);
  }

  lemma PrimedPulse(s: Sched, t: Timing, now: real, det: map<Channel, Detect>)
    ensures var p := Primed(s, t, now, det);
      && p.strumActive == (s.strumActive && now < s.strumReleaseAt) && p.strumReleaseAt == s.strumReleaseAt
  {
    var d := Sense(s, t, now, det);
    assert d.strumActive == s.strumActive && d.strumReleaseAt == s.strumReleaseAt;
    SettledPulse(d, t, now);
  }

  lemma SettledPulse(d: Sched, t: Timing, now: real)
    ensures var p := Settle(d, t, now);
      && p.strumActive == (d.strumActive && now < d.strumReleaseAt) && p.strumReleaseAt == d.strumReleaseAt
  {
    var c := ChordCommit(d, t, now);
    assert c.strumActive == d.strumActive && c.strumReleaseAt == d.strumReleaseAt;
  }

  lemma TickPulse(s: Sched, t: Timing, now: real, det: map<Channel, Detect>)
    ensures var (r, log) := Tick(s, t, now, det);
      && r.strumActive == ((s.strumActive && now < s.strumReleaseAt) || |log| > 0)
      && r.strumReleaseAt == (if |log| > 0 then now + t.pulse else s.strumReleaseAt)
  {
    PrimedPulse(s, t, now, det);
    ServedPulse(Primed(s, t, now, det), t, now);
  }

  /** The strum output is on exactly from a tick that strums to the first tick a pulse later, or a disable. */
  lemma {:induction false} PulseFollowsStrums(t: Timing, inputs: seq<Input>)
    ensures var s, end := Run(t, inputs).s, PulseEnd(t, inputs);
      s.strumActive == end.Some? && (end.Some? ==> s.strumReleaseAt == end.value)
  {
    if inputs != [] {
      PulseFollowsStrums(t, Front(inputs));
      RunUnfolds(t, inputs);
      EnabledIsOn(t, Front(inputs));
      if Ticks(inputs) { TickPulse(Run(t, Front(inputs)).s, t, Final(inputs).now, Final(inputs).det); }
    }
  }
}
