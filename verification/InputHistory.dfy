/** What the scheduler has been told so far, read off the list of inputs alone, and its edge memory
  * against that. */
module InputHistory {
  import opened Wrappers
  import opened Actuator
  import opened StrumSafety

  function Front(inputs: seq<Input>): seq<Input>
    requires inputs != []
  {
    inputs[..|inputs| - 1]
  }

  function Final(inputs: seq<Input>): Input
    requires inputs != []
  {
    inputs[|inputs| - 1]
  }

  /** Switched on by the latest enable. */
  predicate On(inputs: seq<Input>)
  {
    inputs != [] && match Final(inputs) case Enable(on) => on case At(_, _) => On(Front(inputs))
  }

  /** The latest input is a tick that the scheduler, being on, does not ignore. */
  predicate Ticks(inputs: seq<Input>) { inputs != [] && Final(inputs).At? && On(Front(inputs)) }

  predicate Down(det: map<Channel, Detect>, ch: Channel) { ch in det && det[ch].pressed }

  /** Whether `ch` was down at the latest tick. */
  predicate WasDown(inputs: seq<Input>, ch: Channel)
  {
    inputs != [] && if Ticks(inputs) then Down(Final(inputs).det, ch) else WasDown(Front(inputs), ch)
  }

  /** The latest press counter of `ch`, 0 before the first one. */
  function Counter(inputs: seq<Input>, ch: Channel): int
  {
    if inputs == [] then 0
    else if Ticks(inputs) && ch in Final(inputs).det && Final(inputs).det[ch].pressCount.Some? then
      Final(inputs).det[ch].pressCount.value
    else Counter(Front(inputs), ch)
  }

  /** The latest input presses `ch`: its counter moved, or without a counter it went down. */
  predicate Pressed(inputs: seq<Input>, ch: Channel)
  {
    Ticks(inputs) && ch in Final(inputs).det &&
    var d := Final(inputs).det[ch];
    if d.pressCount.Some? then d.pressCount.value != Counter(Front(inputs), ch)
    else d.pressed && !WasDown(Front(inputs), ch)
  }

  /** The latest input releases `ch`: it was down at the tick before and is no longer. */
  predicate Released(inputs: seq<Input>, ch: Channel)
  {
    Ticks(inputs) && !Down(Final(inputs).det, ch) && WasDown(Front(inputs), ch)
  }

  /** The time of the latest release of `ch`. */
  function LatestRelease(inputs: seq<Input>, ch: Channel): Option<real>
  {
    if inputs == [] then None
    else if Released(inputs, ch) then Some(Final(inputs).now)
    else LatestRelease(Front(inputs), ch)
  }

  /** The clock never runs backwards. */
  predicate Monotone(inputs: seq<Input>)
  {
    forall i, j | 0 <= i < j < |inputs| && inputs[i].At? && inputs[j].At? :: inputs[i].now <= inputs[j].now
  }

  // ----- the scheduler's memory of them -----

  lemma RunUnfolds(t: Timing, inputs: seq<Input>)
    requires inputs != []
    ensures Run(t, inputs) == Next(Run(t, Front(inputs)), t, Final(inputs))
  {
  }

  lemma {:induction false} EnabledIsOn(t: Timing, inputs: seq<Input>)
    ensures Run(t, inputs).s.enabled <==> On(inputs)
  {
    if inputs != [] {
      EnabledIsOn(t, Front(inputs));
      RunUnfolds(t, inputs);
      if Ticks(inputs) { TickKeepsOn(Run(t, Front(inputs)).s, t, Final(inputs).now, Final(inputs).det); }
    }
  }

  /** Nothing but queues, frets and the strum pulse differs. */
  ghost predicate SameSenses(a: Sched, b: Sched)
  {
    && a.enabled == b.enabled && a.prevPressed == b.prevPressed && a.prevCount == b.prevCount
    && a.releaseAt == b.releaseAt && a.chordOpen == b.chordOpen && a.chordStart == b.chordStart && a.chordMask == b.chordMask
  }

  /** The state of a tick after the two queues have been served. */
  function Served(s: Sched, t: Timing, now: real, det: map<Channel, Detect>): Sched
  {
    ProcessStrums(ProcessNotes(Primed(s, t, now, det), now), t, now).0
  }

  lemma TickIsServed(s: Sched, t: Timing, now: real, det: map<Channel, Detect>)
    ensures Tick(s, t, now, det).0 == ProcessReleases(Served(s, t, now, det), now, det)
  {
  }

  lemma ServingSenses(p: Sched, t: Timing, now: real)
    ensures var m := ProcessStrums(ProcessNotes(p, now), t, now).0;
            SameSenses(m, p) && m.releasePending == p.releasePending && m.frets == NoteLoop(p.noteQ, p.frets, now).1
  {
  }

  lemma ReleasingSenses(m: Sched, now: real, det: map<Channel, Detect>)
    ensures var r := ProcessReleases(m, now, det);
            SameSenses(r, m) && r.noteQ == m.noteQ && r.strumQ == m.strumQ
  {
  }

  /** Nothing but the queues, the open chord and the strum pulse differs. */
  ghost predicate SameReleases(a: Sched, b: Sched)
  {
    && a.enabled == b.enabled && a.prevPressed == b.prevPressed && a.prevCount == b.prevCount
    && a.releaseAt == b.releaseAt && a.releasePending == b.releasePending && a.frets == b.frets
  }

  lemma CommittingSenses(s: Sched, t: Timing, now: real)
    ensures SameReleases(ChordCommit(s, t, now), s)
  {
  }

  lemma SettlingSenses(s: Sched, t: Timing, now: real)
    ensures SameReleases(Settle(s, t, now), s)
  {
    CommittingSenses(s, t, now);
  }

  lemma SensingSenses(s: Sched, t: Timing, now: real, det: map<Channel, Detect>)
    ensures var d := Sense(s, t, now, det);
      && d.enabled == s.enabled && d.prevPressed == Remember(s, det).prevPressed && d.prevCount == NewCounts(s, det)
  {
  }

  /** What a tick leaves in the edge memory. */
  lemma TickKeepsOn(s: Sched, t: Timing, now: real, det: map<Channel, Detect>)
    ensures var r := Tick(s, t, now, det).0;
      r.enabled == s.enabled && r.prevPressed == Remember(s, det).prevPressed && r.prevCount == NewCounts(s, det)
  {
    TickIsServed(s, t, now, det);
    SensingSenses(s, t, now, det);
    SettlingSenses(Sense(s, t, now, det), t, now);
    ServingSenses(Primed(s, t, now, det), t, now);
    ReleasingSenses(Served(s, t, now, det), now, det);
  }

  lemma {:induction false} RemembersDown(t: Timing, inputs: seq<Input>, ch: Channel)
    ensures ch in Run(t, inputs).s.prevPressed <==> WasDown(inputs, ch)
  {
    if inputs != [] {
      RemembersDown(t, Front(inputs), ch);
      EnabledIsOn(t, Front(inputs));
      RunUnfolds(t, inputs);
      if Ticks(inputs) { TickKeepsOn(Run(t, Front(inputs)).s, t, Final(inputs).now, Final(inputs).det); }
    }
  }

  lemma {:induction false} RemembersCount(t: Timing, inputs: seq<Input>, ch: Channel)
    ensures CountOf(Run(t, inputs).s.prevCount, ch) == Counter(inputs, ch)
  {
    if inputs != [] {
      RemembersCount(t, Front(inputs), ch);
      EnabledIsOn(t, Front(inputs));
      RunUnfolds(t, inputs);
      if Ticks(inputs) { TickKeepsOn(Run(t, Front(inputs)).s, t, Final(inputs).now, Final(inputs).det); }
    }
  }

  /** The edges a tick acts on are those of the input list. */
  lemma EdgesAreHistory(t: Timing, inputs: seq<Input>, ch: Channel)
    requires Ticks(inputs)
    ensures var s, det := Run(t, Front(inputs)).s, Final(inputs).det;
      && (ch in Presses(s, det) <==> Pressed(inputs, ch))
      && (ch in Releases(s, det) <==> Released(inputs, ch))
      && (StateOf(det, ch).pressed <==> Down(det, ch))
  {
    RemembersDown(t, Front(inputs), ch);
    RemembersCount(t, Front(inputs), ch);
  }
}
