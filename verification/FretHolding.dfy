/** When a fret is let go: not while its key is down or a queued chord needs it, and otherwise once the
  * delay after the key's release is over. */
module FretHolding {
  import opened Wrappers
  import opened Actuator
  import opened StrumSafety
  import opened InputHistory
  import opened Words

  predicate AwaitedIn(q: seq<Pending>, ch: Channel) { exists i :: 0 <= i < |q| && ch in q[i].mask }

  /** Some chord with `ch` is still to be fretted or strummed. */
  predicate Awaited(s: Sched, ch: Channel) { AwaitedIn(s.noteQ, ch) || AwaitedIn(s.strumQ, ch) }

  /** The release of `ch` is to come no earlier than `delay` after the open chord began. */
  ghost predicate ReleaseComes(s: Sched, ch: Channel, earliest: real)
  {
    ch in s.releasePending && ch in s.releaseAt && s.releaseAt[ch] >= earliest
  }

  /** A fret that is out, queued or in the open chord has its key down or its release still to come. */
  ghost predicate Kept(s: Sched, t: Timing, ch: Channel)
  {
    && (ch in s.frets || Awaited(s, ch) ==> ch in s.prevPressed || ch in s.releasePending)
    && (s.chordOpen && ch in s.chordMask ==> ch in s.prevPressed || ReleaseComes(s, ch, s.chordStart + t.delay))
  }

  // ----- one tick, pass by pass -----

  lemma SensedFields(s: Sched, t: Timing, now: real, det: map<Channel, Detect>, ch: Channel)
    ensures var d := Sense(s, t, now, det);
      && d.noteQ == s.noteQ && d.strumQ == s.strumQ && d.frets == s.frets
      && (ch in d.prevPressed <==> StateOf(det, ch).pressed)
      && (ch in d.releasePending <==> ch in s.releasePending || ch in Releases(s, det))
      && (ch in d.releaseAt <==> ch in s.releaseAt || ch in Releases(s, det))
      && (ch in d.releaseAt ==> d.releaseAt[ch] == if ch in Releases(s, det) then now + t.delay else s.releaseAt[ch])
  {
  }

  lemma SensedChord(s: Sched, t: Timing, now: real, det: map<Channel, Detect>, ch: Channel)
    ensures var d := Sense(s, t, now, det);
      && d.chordOpen == (s.chordOpen || Presses(s, det) != {})
      && (d.chordOpen ==> d.chordStart == if s.chordOpen then s.chordStart else now)
      && (d.chordOpen ==> (ch in d.chordMask <==> (s.chordOpen && ch in s.chordMask) || ch in Presses(s, det)))
  {
  }

  lemma SenseKept(s: Sched, t: Timing, now: real, det: map<Channel, Detect>, ch: Channel)
    requires s.chordOpen ==> s.chordStart <= now
    requires ch in Releases(s, det) || (Kept(s, t, ch) && (ch in Presses(s, det) ==> StateOf(det, ch).pressed))
    ensures Kept(Sense(s, t, now, det), t, ch)
  {
    SensedFields(s, t, now, det, ch);
    SensedChord(s, t, now, det, ch);
    assert ch in Releases(s, det) <==> ReleaseEdge(s, det, ch);
  }

  lemma AppendAwaits(q: seq<Pending>, e: Pending, ch: Channel)
    ensures AwaitedIn(q + [e], ch) ==> AwaitedIn(q, ch) || ch in e.mask
  {
    forall i | 0 <= i < |q + [e]| && ch in (q + [e])[i].mask
      ensures AwaitedIn(q, ch) || ch in e.mask
    {
      if i < |q| { assert ch in q[i].mask; }
    }
  }

  lemma CommittedQueues(s: Sched, t: Timing, now: real, ch: Channel)
    ensures var c := ChordCommit(s, t, now);
      !c.chordOpen && (Awaited(c, ch) ==> Awaited(s, ch) || ch in s.chordMask)
  {
    var c := ChordCommit(s, t, now);
    if |c.noteQ| > |s.noteQ| {
      AppendAwaits(s.noteQ, c.noteQ[|s.noteQ|], ch);
      AppendAwaits(s.strumQ, c.strumQ[|s.strumQ|], ch);
    }
  }

  lemma SettleKept(s: Sched, t: Timing, now: real, ch: Channel)
    requires Kept(s, t, ch)
    ensures var p := Settle(s, t, now); Kept(p, t, ch) && (p.chordOpen ==> now - p.chordStart < t.window)
  {
    CommittingSenses(s, t, now);
    CommittedQueues(s, t, now, ch);
  }

  /** What a pass leaves in a queue was there before. */
  lemma DroppedAwaits(q: seq<Pending>, n: nat, rest: seq<Pending>, ch: Channel)
    requires Dropped(q, n, rest) && AwaitedIn(rest, ch)
    ensures AwaitedIn(q, ch)
  {
    var i :| 0 <= i < |rest| && ch in rest[i].mask;
    assert rest[i] == q[n + i];
  }

  lemma NotesAwait(q: seq<Pending>, frets: Mask, now: real, ch: Channel)
    ensures var (rest, frets') := NoteLoop(q, frets, now);
      (AwaitedIn(rest, ch) ==> AwaitedIn(q, ch)) && (ch in frets' ==> ch in frets || AwaitedIn(q, ch))
  {
    var (rest, frets') := NoteLoop(q, frets, now);
    NotesPass(q, frets, now);
    if AwaitedIn(rest, ch) { DroppedAwaits(q, Due(q, now), rest, ch); }
    if ch in frets' && Due(q, now) > 0 { assert ch in q[Due(q, now) - 1].mask; }
  }

  lemma StrumsAwait(q: seq<Pending>, up: bool, frets: Mask, now: real, ch: Channel)
    ensures AwaitedIn(StrumLoop(q, up, frets, now, []).0, ch) ==> AwaitedIn(q, ch)
  {
    var rest := StrumLoop(q, up, frets, now, []).0;
    StrumsPass(q, up, frets, now, []);
    if AwaitedIn(rest, ch) { DroppedAwaits(q, Due(q, now), rest, ch); }
  }

  lemma ServedAwaits(p: Sched, t: Timing, now: real, ch: Channel)
    ensures var m := ProcessStrums(ProcessNotes(p, now), t, now).0;
      (Awaited(m, ch) ==> Awaited(p, ch)) && (ch in m.frets ==> ch in p.frets || Awaited(p, ch))
  {
    NotesAwait(p.noteQ, p.frets, now, ch);
    StrumsAwait(p.strumQ, p.strumUp, NoteLoop(p.noteQ, p.frets, now).1, now, ch);
  }

  lemma ServeKept(p: Sched, t: Timing, now: real, ch: Channel)
    requires Kept(p, t, ch)
    ensures Kept(ProcessStrums(ProcessNotes(p, now), t, now).0, t, ch)
  {
    ServingSenses(p, t, now);
    ServedAwaits(p, t, now, ch);
  }

  lemma AwaitedIsQueued(q: seq<Pending>, ch: Channel)
    ensures AwaitedIn(q, ch) <==> QueuedFor(q, ch)
  {
  }

  /** The pending release of `ch` is due, its key is up and no queued chord needs it. */
  predicate LetsGo(m: Sched, now: real, det: map<Channel, Detect>, ch: Channel)
  {
    && ch in m.releasePending && ch in m.releaseAt && now >= m.releaseAt[ch]
    && !StateOf(det, ch).pressed && !Awaited(m, ch)
  }

  lemma ReleasedFields(m: Sched, now: real, det: map<Channel, Detect>, ch: Channel)
    ensures var r := ProcessReleases(m, now, det);
      && (ch in r.frets <==> ch in m.frets && !LetsGo(m, now, det, ch))
      && (ch in r.releasePending <==> ch in m.releasePending && !LetsGo(m, now, det, ch))
      && (Awaited(r, ch) <==> Awaited(m, ch))
  {
    AwaitedIsQueued(m.noteQ, ch);
    AwaitedIsQueued(m.strumQ, ch);
    assert ReleaseNow(m, now, det, ch) <==> LetsGo(m, now, det, ch);
  }

  lemma ReleaseKept(m: Sched, t: Timing, now: real, det: map<Channel, Detect>, ch: Channel)
    requires Kept(m, t, ch) && t.window <= t.delay && (m.chordOpen ==> now - m.chordStart < t.window)
    requires ch in m.prevPressed <==> StateOf(det, ch).pressed
    ensures Kept(ProcessReleases(m, now, det), t, ch)
  {
    ReleasedFields(m, now, det, ch);
    ReleasingSenses(m, now, det);
  }

  /** A tick that does not press `ch` without its key being down keeps it so, and one that releases it
    * makes it so. */
  lemma TickKept(s: Sched, t: Timing, now: real, det: map<Channel, Detect>, ch: Channel)
    requires t.window <= t.delay && (s.chordOpen ==> s.chordStart <= now)
    requires ch in Releases(s, det) || (Kept(s, t, ch) && (ch in Presses(s, det) ==> StateOf(det, ch).pressed))
    ensures Kept(Tick(s, t, now, det).0, t, ch)
  {
    var d := Sense(s, t, now, det);
    var p := Settle(d, t, now);
    SenseKept(s, t, now, det, ch);
    SensedFields(s, t, now, det, ch);
    SettleKept(d, t, now, ch);
    SettlingSenses(d, t, now);
    ServeKept(p, t, now, ch);
    ServingSenses(p, t, now);
    ReleaseKept(Served(s, t, now, det), t, now, det, ch);
    TickIsServed(s, t, now, det);
  }

  // ----- whole runs -----

  /** The latest input presses `ch` while its key reads up: only the counter tells. */
  predicate HiddenTap(inputs: seq<Input>, ch: Channel) { Pressed(inputs, ch) && !Down(Final(inputs).det, ch) }

  /** Since power-up, a disable or a release of `ch`, whichever came last, no press of `ch` went unseen
    * by the key's level. */
  predicate Visible(inputs: seq<Input>, ch: Channel)
  {
    inputs == [] || Final(inputs) == Enable(false) || Released(inputs, ch) ||
    (Visible(Front(inputs), ch) && !HiddenTap(inputs, ch))
  }

  lemma {:induction false} ChordBegan(t: Timing, inputs: seq<Input>)
    ensures var s := Run(t, inputs).s;
      s.chordOpen ==> exists i :: 0 <= i < |inputs| && inputs[i].At? && inputs[i].now == s.chordStart
  {
    if inputs != [] {
      var s := Run(t, Front(inputs)).s;
      ChordBegan(t, Front(inputs));
      RunUnfolds(t, inputs);
      EnabledIsOn(t, Front(inputs));
      if Ticks(inputs) { TickChordStart(s, t, Final(inputs).now, Final(inputs).det); }
      if s.chordOpen {
        var i :| 0 <= i < |Front(inputs)| && Front(inputs)[i].At? && Front(inputs)[i].now == s.chordStart;
        assert inputs[i].now == s.chordStart;
      }
      if Final(inputs).At? { assert inputs[|inputs| - 1].now == Final(inputs).now; }
    }
  }

  lemma TickChordStart(s: Sched, t: Timing, now: real, det: map<Channel, Detect>)
    ensures var r := Tick(s, t, now, det).0;
      r.chordOpen ==> r.chordStart == if s.chordOpen then s.chordStart else now
  {
    var d := Sense(s, t, now, det);
    SensedChord(s, t, now, det, Green);
    CommittedQueues(d, t, now, Green);
    ServingSenses(Settle(d, t, now), t, now);
    ReleasingSenses(Served(s, t, now, det), now, det);
    TickIsServed(s, t, now, det);
  }

  lemma ChordBeganBefore(t: Timing, inputs: seq<Input>)
    requires inputs != [] && Final(inputs).At? && Monotone(inputs)
    ensures var s := Run(t, Front(inputs)).s; s.chordOpen ==> s.chordStart <= Final(inputs).now
  {
    ChordBegan(t, Front(inputs));
    var s := Run(t, Front(inputs)).s;
    if s.chordOpen {
      var i :| 0 <= i < |Front(inputs)| && Front(inputs)[i].At? && Front(inputs)[i].now == s.chordStart;
      assert inputs[i].now <= inputs[|inputs| - 1].now;
    }
  }

  lemma MonotoneFront(inputs: seq<Input>)
    requires inputs != [] && Monotone(inputs)
    ensures Monotone(Front(inputs))
  {
  }

  /** No fret outlives its key unseen: over every run whose presses of `ch` are visible. */
  lemma {:induction false} RunKept(t: Timing, inputs: seq<Input>, ch: Channel)
    requires t.window <= t.delay && Monotone(inputs) && Visible(inputs, ch)
    ensures Kept(Run(t, inputs).s, t, ch)
  {
    if inputs != [] {
      RunUnfolds(t, inputs);
      EnabledIsOn(t, Front(inputs));
      MonotoneFront(inputs);
      if Visible(Front(inputs), ch) { RunKept(t, Front(inputs), ch); }
      if Ticks(inputs) {
        ChordBeganBefore(t, inputs);
        EdgesAreHistory(t, inputs, ch);
        TickKept(Run(t, Front(inputs)).s, t, Final(inputs).now, Final(inputs).det, ch);
      }
    }
  }

  lemma TickDeadline(s: Sched, t: Timing, now: real, det: map<Channel, Detect>, ch: Channel)
    ensures var r := Tick(s, t, now, det).0;
      && (ch in r.releaseAt <==> ch in s.releaseAt || ch in Releases(s, det))
      && (ch in r.releaseAt ==> r.releaseAt[ch] == if ch in Releases(s, det) then now + t.delay else s.releaseAt[ch])
      && (ch in r.releasePending ==> ch in s.releasePending || ch in Releases(s, det))
  {
    var d := Sense(s, t, now, det);
    SensedFields(s, t, now, det, ch);
    SettlingSenses(d, t, now);
    ServingSenses(Settle(d, t, now), t, now);
    ReleasedFields(Served(s, t, now, det), now, det, ch);
    ReleasingSenses(Served(s, t, now, det), now, det);
    TickIsServed(s, t, now, det);
  }

  /** The deadline kept for `ch` is that of its latest release. */
  lemma {:induction false} DeadlineOfLatest(t: Timing, inputs: seq<Input>, ch: Channel)
    ensures var s := Run(t, inputs).s;
      && (ch in s.releaseAt <==> LatestRelease(inputs, ch).Some?)
      && (ch in s.releaseAt ==> s.releaseAt[ch] == LatestRelease(inputs, ch).value + t.delay)
      && (ch in s.releasePending ==> ch in s.releaseAt)
  {
    if inputs != [] {
      DeadlineOfLatest(t, Front(inputs), ch);
      RunUnfolds(t, inputs);
      EnabledIsOn(t, Front(inputs));
      if Ticks(inputs) {
        EdgesAreHistory(t, inputs, ch);
        TickDeadline(Run(t, Front(inputs)).s, t, Final(inputs).now, Final(inputs).det, ch);
      }
    }
  }

  // ----- the frets after a tick -----

  /** Exactly the first `d` chords of the queue are due. */
  ghost predicate DueFirst(q: seq<Pending>, now: real, d: nat)
  {
    d <= |q| && (forall i | 0 <= i < d :: q[i].at <= now) && (d < |q| ==> now < q[d].at)
  }

  /** The frets in place before releases: those of the last due chord if there is one. */
  function Base(s: Sched, d: nat): Mask
    requires d <= |s.noteQ|
  {
    if d == 0 then s.frets else s.noteQ[d - 1].mask
  }

  lemma CommittedLater(s: Sched, t: Timing, now: real, det: map<Channel, Detect>)
    requires t.early < t.delay
    ensures var q := Primed(s, t, now, det).noteQ;
      && |s.noteQ| <= |q| <= |s.noteQ| + 1 && (forall i | 0 <= i < |s.noteQ| :: q[i] == s.noteQ[i])
      && (|q| > |s.noteQ| ==> now < q[|s.noteQ|].at)
  {
    SenseKeepsQueues(s, t, now, det);
  }

  lemma BaseFrets(s: Sched, t: Timing, now: real, det: map<Channel, Detect>, d: nat)
    requires t.early < t.delay && DueFirst(s.noteQ, now, d)
    ensures Served(s, t, now, det).frets == Base(s, d)
  {
    var p := Primed(s, t, now, det);
    CommittedLater(s, t, now, det);
    NotesPass(p.noteQ, p.frets, now);
    ServingSenses(p, t, now);
    SenseKeepsQueues(s, t, now, det);
    SettlingSenses(Sense(s, t, now, det), t, now);
    DueIs(p.noteQ, now, d);
    if d > 0 { assert p.noteQ[d - 1] == s.noteQ[d - 1]; }
  }

  lemma {:induction false} DueIs(q: seq<Pending>, now: real, d: nat)
    requires DueFirst(q, now, d)
    ensures Due(q, now) == d
  {
    if d > 0 {
      assert q[0].at <= now;
      assert forall i | 0 <= i < d - 1 :: q[1..][i] == q[i + 1];
      DueIs(q[1..], now, d - 1);
    }
  }

  /** What a tick leaves of the release of `ch`. */
  lemma TickLetsGo(s: Sched, t: Timing, now: real, det: map<Channel, Detect>, ch: Channel)
    ensures var m, r := Served(s, t, now, det), Tick(s, t, now, det).0;
      && (ch in r.frets <==> ch in m.frets && !LetsGo(m, now, det, ch))
      && (ch in r.releasePending <==> ch in m.releasePending && !LetsGo(m, now, det, ch))
      && m.releaseAt == r.releaseAt && (Awaited(r, ch) <==> Awaited(m, ch))
      && (ch in r.prevPressed <==> StateOf(det, ch).pressed)
  {
    var d := Sense(s, t, now, det);
    SensedFields(s, t, now, det, ch);
    SettlingSenses(d, t, now);
    ServingSenses(Settle(d, t, now), t, now);
    ReleasedFields(Served(s, t, now, det), now, det, ch);
    ReleasingSenses(Served(s, t, now, det), now, det);
    TickIsServed(s, t, now, det);
  }

  /** The delay since the latest release of `ch` is not over. */
  predicate NotOver(inputs: seq<Input>, ch: Channel, now: real, delay: real)
  {
    LatestRelease(inputs, ch).Some? && now < LatestRelease(inputs, ch).value + delay
  }

  /** The frets after any tick, from the detectors' inputs: a fret of the chord in place is kept exactly
    * while its key is down, a queued chord needs it, or the delay since its latest release runs. */
  lemma FretsExactly(t: Timing, inputs: seq<Input>, ch: Channel, d: nat)
    requires t.window <= t.delay && t.early < t.delay && Monotone(inputs) && Visible(inputs, ch) && Ticks(inputs)
    requires DueFirst(Run(t, Front(inputs)).s.noteQ, Final(inputs).now, d)
    ensures var now, det := Final(inputs).now, Final(inputs).det;
            var s, r := Run(t, Front(inputs)).s, Run(t, inputs).s;
      ch in r.frets <==> ch in Base(s, d) && (Down(det, ch) || Awaited(r, ch) || NotOver(inputs, ch, now, t.delay))
  {
    var now, det, s := Final(inputs).now, Final(inputs).det, Run(t, Front(inputs)).s;
    RunUnfolds(t, inputs);
    EnabledIsOn(t, Front(inputs));
    BaseFrets(s, t, now, det, d);
    TickLetsGo(s, t, now, det, ch);
    EdgesAreHistory(t, inputs, ch);
    DeadlineOfLatest(t, inputs, ch);
    RunKept(t, inputs, ch);
  }

  /** Whatever happened before, a tick keeps every fret of the chord in place whose key is down. */
  lemma PressedStays(t: Timing, inputs: seq<Input>, ch: Channel, d: nat)
    requires t.early < t.delay && Ticks(inputs) && Down(Final(inputs).det, ch)
    requires DueFirst(Run(t, Front(inputs)).s.noteQ, Final(inputs).now, d)
    ensures ch in Run(t, inputs).s.frets <==> ch in Base(Run(t, Front(inputs)).s, d)
  {
    var now, det, s := Final(inputs).now, Final(inputs).det, Run(t, Front(inputs)).s;
    RunUnfolds(t, inputs);
    EnabledIsOn(t, Front(inputs));
    BaseFrets(s, t, now, det, d);
    TickLetsGo(s, t, now, det, ch);
    EdgesAreHistory(t, inputs, ch);
  }

  /** A released fret goes: from `delay` after the latest release on, a tick that finds the key up and no
    * queued chord in need of it leaves the fret out, and its bit out of the mask. */
  lemma ReleasedGoes(t: Timing, inputs: seq<Input>, ch: Channel)
    requires t.window <= t.delay && Monotone(inputs) && Visible(inputs, ch) && Ticks(inputs)
    requires !Down(Final(inputs).det, ch) && !Awaited(Run(t, inputs).s, ch)
    requires !NotOver(inputs, ch, Final(inputs).now, t.delay)
    ensures ch !in Run(t, inputs).s.frets && !HasBit(Output(Run(t, inputs).s), BitOf(ch))
  {
    var now, det, s := Final(inputs).now, Final(inputs).det, Run(t, Front(inputs)).s;
    RunUnfolds(t, inputs);
    EnabledIsOn(t, Front(inputs));
    TickLetsGo(s, t, now, det, ch);
    EdgesAreHistory(t, inputs, ch);
    DeadlineOfLatest(t, inputs, ch);
    RunKept(t, inputs, ch);
    OutputBits(Run(t, inputs).s, ch);
  }

  // ----- why both conditions are needed -----

  /** No tick has seen the key of `ch` down. */
  predicate NeverDown(inputs: seq<Input>, ch: Channel) { forall i | 0 <= i < |inputs| && inputs[i].At? :: !Down(inputs[i].det, ch) }

  lemma {:induction false} NeverReleased(inputs: seq<Input>, ch: Channel)
    requires NeverDown(inputs, ch)
    ensures !WasDown(inputs, ch) && LatestRelease(inputs, ch) == None
  {
    if inputs != [] {
      assert forall i | 0 <= i < |Front(inputs)| :: Front(inputs)[i] == inputs[i];
      NeverReleased(Front(inputs), ch);
    }
  }

  /** A fret known only from its counter is never released: it goes only when another chord takes its
    * place, or with a disable. */
  lemma TappedStays(t: Timing, inputs: seq<Input>, ch: Channel, d: nat)
    requires t.early < t.delay && Ticks(inputs) && NeverDown(inputs, ch)
    requires DueFirst(Run(t, Front(inputs)).s.noteQ, Final(inputs).now, d)
    ensures ch in Run(t, inputs).s.frets <==> ch in Base(Run(t, Front(inputs)).s, d)
  {
    var now, det, s := Final(inputs).now, Final(inputs).det, Run(t, Front(inputs)).s;
    RunUnfolds(t, inputs);
    EnabledIsOn(t, Front(inputs));
    NeverReleased(inputs, ch);
    DeadlineOfLatest(t, inputs, ch);
    BaseFrets(s, t, now, det, d);
    TickLetsGo(s, t, now, det, ch);
  }

  /** The detectors while only the green key moves and none has a counter. */
  function Key(down: bool): map<Channel, Detect> { map[Green := Detect(down, None)] }

  function GreenIf(c: bool): Mask { if c then {Green} else {} }

  /** The state as far as the run below depends on it. */
  ghost predicate Holds(s: Sched, down: bool, open: bool, notes: seq<Pending>, strums: seq<Pending>, frets: Mask,
                        pending: bool, due: real)
  {
    && s.enabled && s.prevPressed == GreenIf(down) && s.noteQ == notes && s.strumQ == strums && s.frets == frets
    && s.chordOpen == open && (open ==> s.chordStart == 0.0 && s.chordMask == {Green})
    && s.releasePending == GreenIf(pending) && (pending ==> Green in s.releaseAt) && (Green in s.releaseAt ==> s.releaseAt[Green] == due)
  }

  lemma KeyEdges(s: Sched, was: bool, down: bool)
    requires s.prevPressed == GreenIf(was)
    ensures Presses(s, Key(down)) == GreenIf(down && !was) && Releases(s, Key(down)) == GreenIf(was && !down)
    ensures Remember(s, Key(down)).prevPressed == GreenIf(down)
  {
    forall ch: Channel
      ensures PressEdge(s, Key(down), ch) <==> ch == Green && down && !was
      ensures ReleaseEdge(s, Key(down), ch) <==> ch == Green && was && !down
      ensures StateOf(Key(down), ch).pressed <==> ch == Green && down
    {
    }
  }

  lemma SenseKey(s: Sched, t: Timing, now: real, was: bool, down: bool, open: bool, notes: seq<Pending>,
                 strums: seq<Pending>, frets: Mask, pending: bool, due: real)
    requires Holds(s, was, open, notes, strums, frets, pending, due) && (down && !was ==> now == 0.0)
    ensures Holds(Sense(s, t, now, Key(down)), down, open || (down && !was), notes, strums, frets,
                  pending || (was && !down), if was && !down then now + t.delay else due)
  {
    KeyEdges(s, was, down);
  }

  lemma ReleaseKey(m: Sched, now: real, open: bool, notes: seq<Pending>, strums: seq<Pending>, frets: Mask,
                   down: bool, pending: bool, due: real)
    requires Holds(m, down, open, notes, strums, frets, pending, due)
    ensures var gone := pending && now >= due && !down && !Awaited(m, Green);
            Holds(ProcessReleases(m, now, Key(down)), down, open, notes, strums, frets - GreenIf(gone), pending && !gone, due)
  {
    var gone := pending && now >= due && !down && !Awaited(m, Green);
    forall ch: Channel
      ensures ReleaseNow(m, now, Key(down), ch) <==> ch in GreenIf(gone)
    {
      AwaitedIsQueued(m.noteQ, ch);
      AwaitedIsQueued(m.strumQ, ch);
      if ch != Green { assert ch !in m.releasePending; }
    }
  }

  /** A tick while the chord stays open and nothing is queued. */
  lemma OpenTick(s: Sched, t: Timing, now: real, was: bool, down: bool, open: bool, pending: bool, due: real)
    requires Holds(s, was, open, [], [], {}, pending, due) && (down && !was ==> now == 0.0) && now < t.window
    ensures var late := pending || (was && !down);
            var due' := if was && !down then now + t.delay else due;
            var gone := now >= due' && !down;
            Holds(Tick(s, t, now, Key(down)).0, down, open || (down && !was), [], [], {}, late && !gone, due')
  {
    var late := pending || (was && !down);
    var due' := if was && !down then now + t.delay else due;
    SenseKey(s, t, now, was, down, open, [], [], {}, pending, due);
    NothingServed(Sense(s, t, now, Key(down)), t, now, open || (down && !was), down, late, due');
    ReleaseKey(Served(s, t, now, Key(down)), now, open || (down && !was), [], [], {}, down, late, due');
    TickIsServed(s, t, now, Key(down));
  }

  lemma NothingServed(d: Sched, t: Timing, now: real, open: bool, down: bool, pending: bool, due: real)
    requires Holds(d, down, open, [], [], {}, pending, due) && now < t.window
    ensures var m := ProcessStrums(ProcessNotes(Settle(d, t, now), now), t, now).0;
            Holds(m, down, open, [], [], {}, pending, due) && !Awaited(m, Green)
  {
  }

  /** The tick that commits the open chord, its release no longer pending. */
  lemma CommitTick(s: Sched, t: Timing, due: real, end: real)
    requires Holds(s, false, true, [], [], {}, false, due) && 0.0 <= t.early < t.delay < t.window && end == t.window + t.delay
    ensures Holds(Tick(s, t, t.window, Key(false)).0, false, false, [Pending({Green}, end - t.early)],
                  [Pending({Green}, end)], {}, false, due)
  {
    SenseKey(s, t, t.window, false, false, true, [], [], {}, false, due);
    var p := Settle(Sense(s, t, t.window, Key(false)), t, t.window);
    ReleaseKey(p, t.window, false, p.noteQ, p.strumQ, {}, false, false, due);
  }

  /** The tick at which it is fretted and strummed. */
  lemma StrumTick(s: Sched, t: Timing, due: real, end: real)
    requires 0.0 <= t.early < t.delay < t.window && end == t.window + t.delay
    requires Holds(s, false, false, [Pending({Green}, end - t.early)],
                   [Pending({Green}, end)], {}, false, due)
    ensures Holds(Tick(s, t, end, Key(false)).0, false, false, [], [], {Green}, false, due)
  {
    var now, notes, strums := end, s.noteQ, s.strumQ;
    SenseKey(s, t, now, false, false, false, notes, strums, {}, false, due);
    var d := Sense(s, t, now, Key(false));
    LonePass(notes[0], {}, s.strumUp, now);
    var m := ProcessStrums(ProcessNotes(Settle(d, t, now), now), t, now).0;
    LoneStrum(strums[0], {Green}, d.strumUp, now);
    ReleaseKey(m, now, false, [], [], {Green}, false, false, due);
  }

  /** Key down at 0, up again early enough for the delay to end within the window, and ticks when the chord
    * commits and when it sounds. */
  function LongWindowRun(t: Timing): seq<Input>
  {
    var up := (t.window - t.delay) / 2.0;
    [Enable(true), At(0.0, Key(true)), At(up, Key(false)), At(up + t.delay, Key(false)),
     At(t.window, Key(false)), At(t.window + t.delay, Key(false))]
  }

  ghost predicate IsLongWindow(run: seq<Input>, t: Timing, up: real, due: real, end: real)
  {
    && |run| == 6 && 0.0 < up < due < t.window < end && due == up + t.delay && end == t.window + t.delay
    && run[0] == Enable(true) && run[1] == At(0.0, Key(true)) && run[2] == At(up, Key(false))
    && run[3] == At(due, Key(false)) && run[4] == At(t.window, Key(false))
    && run[5] == At(end, Key(false))
  }

  /** The run's next tick. */
  lemma NextTick(t: Timing, run: seq<Input>, n: nat, now: real, det: map<Channel, Detect>)
    requires n < |run| && run[n] == At(now, det) && Run(t, run[..n]).s.enabled
    ensures Run(t, run[..n + 1]).s == Tick(Run(t, run[..n]).s, t, now, det).0
  {
    RunOn(t, run, n);
  }

  lemma LongWindowStarts(t: Timing, run: seq<Input>, up: real, due: real, end: real)
    requires IsLongWindow(run, t, up, due, end)
    ensures Holds(Run(t, run[..1]).s, false, false, [], [], {}, false, 0.0)
  {
    RunOn(t, run, 0);
    assert Run(t, run[..0]).s == IDLE;
  }

  lemma LongWindowPressed(t: Timing, run: seq<Input>, up: real, due: real, end: real)
    requires IsLongWindow(run, t, up, due, end) && 0.0 < t.window
    ensures Holds(Run(t, run[..2]).s, true, true, [], [], {}, false, 0.0)
  {
    LongWindowStarts(t, run, up, due, end);
    NextTick(t, run, 1, 0.0, Key(true));
    OpenTick(Run(t, run[..1]).s, t, 0.0, false, true, false, false, 0.0);
  }

  lemma LongWindowReleased(t: Timing, run: seq<Input>, up: real, due: real, end: real)
    requires IsLongWindow(run, t, up, due, end) && 0.0 < t.delay < t.window
    ensures Holds(Run(t, run[..3]).s, false, true, [], [], {}, true, due)
  {
    LongWindowPressed(t, run, up, due, end);
    NextTick(t, run, 2, up, Key(false));
    OpenTick(Run(t, run[..2]).s, t, up, true, false, true, false, 0.0);
  }

  lemma LongWindowSpent(t: Timing, run: seq<Input>, up: real, due: real, end: real)
    requires IsLongWindow(run, t, up, due, end) && 0.0 < t.delay < t.window
    ensures Holds(Run(t, run[..4]).s, false, true, [], [], {}, false, due)
  {
    LongWindowReleased(t, run, up, due, end);
    NextTick(t, run, 3, due, Key(false));
    OpenTick(Run(t, run[..3]).s, t, due, false, false, true, true, due);
  }

  lemma LongWindowCommits(t: Timing, run: seq<Input>, up: real, due: real, end: real)
    requires IsLongWindow(run, t, up, due, end) && 0.0 <= t.early < t.delay < t.window
    ensures Holds(Run(t, run[..5]).s, false, false, [Pending({Green}, end - t.early)],
                  [Pending({Green}, end)], {}, false, due)
  {
    LongWindowSpent(t, run, up, due, end);
    NextTick(t, run, 4, t.window, Key(false));
    CommitTick(Run(t, run[..4]).s, t, due, end);
  }

  lemma LongWindowSounds(t: Timing, run: seq<Input>, up: real, due: real, end: real)
    requires IsLongWindow(run, t, up, due, end) && 0.0 <= t.early < t.delay < t.window
    ensures Holds(Run(t, run[..6]).s, false, false, [], [], {Green}, false, due)
  {
    LongWindowCommits(t, run, up, due, end);
    NextTick(t, run, 5, end, Key(false));
    StrumTick(Run(t, run[..5]).s, t, due, end);
  }

  predicate NoCounters(inputs: seq<Input>)
  {
    forall i, ch | 0 <= i < |inputs| && inputs[i].At? && ch in inputs[i].det :: inputs[i].det[ch].pressCount == None
  }

  lemma {:induction false} NoCountersVisible(inputs: seq<Input>, ch: Channel)
    requires NoCounters(inputs)
    ensures Visible(inputs, ch)
  {
    if inputs != [] {
      assert forall i | 0 <= i < |Front(inputs)| :: Front(inputs)[i] == inputs[i];
      NoCountersVisible(Front(inputs), ch);
    }
  }

  lemma LongWindowInputs(t: Timing, run: seq<Input>, up: real, due: real, end: real)
    requires IsLongWindow(run, t, up, due, end) && 0.0 <= t.early < t.delay < t.window
    ensures Monotone(run) && Visible(run, Green) && Ticks(run)
  {
    NoCountersVisible(run, Green);
    LongWindowCommits(t, run, up, due, end);
    EnabledIsOn(t, Front(run));
  }

  lemma LongWindowEnds(t: Timing, run: seq<Input>, up: real, due: real, end: real)
    requires IsLongWindow(run, t, up, due, end) && 0.0 <= t.early < t.delay < t.window
    ensures var s := Run(t, run).s; Green in s.frets && !Awaited(s, Green)
    ensures !NotOver(run, Green, end, t.delay)
  {
    LongWindowSounds(t, run, up, due, end);
    assert run[..6] == run;
    DeadlineOfLatest(t, run, Green);
  }

  /** A window longer than the delay leaves a fret out although its key is up, its delay is over and no
    * chord needs it: its release came and went while the chord was still open. */
  lemma LongWindowHolds(t: Timing)
    requires 0.0 <= t.early < t.delay < t.window
    ensures var inputs := LongWindowRun(t);
            var s := Run(t, inputs).s;
      && Monotone(inputs) && Visible(inputs, Green) && Ticks(inputs) && !Down(Final(inputs).det, Green)
      && !NotOver(inputs, Green, Final(inputs).now, t.delay) && Green in s.frets && !Awaited(s, Green)
  {
    var run, up := LongWindowRun(t), (t.window - t.delay) / 2.0;
    var due, end := up + t.delay, t.window + t.delay;
    LongWindowInputs(t, run, up, due, end);
    LongWindowEnds(t, run, up, due, end);
  }

  lemma LonePass(e: Pending, frets: Mask, up: bool, now: real)
    requires e.at <= now
    ensures NoteLoop([e], frets, now) == ([], e.mask)
  {
    assert [e][1..] == [];
  }

  lemma LoneStrum(e: Pending, frets: Mask, up: bool, now: real)
    requires e.at <= now
    ensures StrumLoop([e], up, frets, now, []).0 == []
  {
    assert [e][1..] == [];
  }

  /** A disable drops every chord, fret, pulse and pending release at once, and keeps the edge memory. */
  lemma DisableClears(t: Timing, inputs: seq<Input>)
    ensures var s, r := Run(t, inputs).s, Run(t, inputs + [Enable(false)]).s;
      && !r.enabled && Output(r) == 0 && r.frets == {} && !r.strumActive && r.noteQ == [] && r.strumQ == []
      && !r.chordOpen && r.releasePending == {}
      && r.prevPressed == s.prevPressed && r.prevCount == s.prevCount && r.strumUp == s.strumUp
  {
    assert (inputs + [Enable(false)])[..|inputs|] == inputs;
  }

  // ----- the output mask -----

  /** Bit positions of the wire format: green lowest, then the strum directions down and up. */
  function BitOf(ch: Channel): nat
  {
    match ch case Green => 1 case Red => 2 case Yellow => 4 case Blue => 8 case Orange => 16
  }

  predicate HasBit(mask: nat, bit: nat)
    requires bit > 0
  {
    mask / bit % 2 == 1
  }

  /** The emitted mask has exactly the bits of the frets and of the direction of a running strum. */
  lemma OutputBits(s: Sched, ch: Channel)
    ensures Output(s) < 128 && (!s.enabled ==> Output(s) == 0)
    ensures HasBit(Output(s), BitOf(ch)) <==> s.enabled && ch in s.frets
    ensures HasBit(Output(s), 32) <==> s.enabled && s.strumActive && !s.strumUp
    ensures HasBit(Output(s), 64) <==> s.enabled && s.strumActive && s.strumUp
  {
    if s.enabled {
      var g, r := if Green in s.frets then 1 else 0, if Red in s.frets then 2 else 0;
      var y, b := if Yellow in s.frets then 4 else 0, if Blue in s.frets then 8 else 0;
      var o, u := if Orange in s.frets then 16 else 0, if s.strumActive then if s.strumUp then 64 else 32 else 0;
      SevenBits(g, r, y, b, o, if u == 32 then 32 else 0, if u == 64 then 64 else 0);
    } else {
      SevenBits(0, 0, 0, 0, 0, 0, 0);
    }
  }

  lemma BitAt(mask: nat, w: nat, hi: nat, b: nat, lo: nat)
    requires b <= 1 && lo < w && mask == (hi + hi + b) * w + lo
    ensures HasBit(mask, w) <==> b == 1
  {
    DivUnique(mask, w, hi + hi + b, lo);
    assert (hi + hi + b) % 2 == b by { DivUnique(hi + hi + b, 2, hi, b); }
  }

  /** A sum of distinct bits has exactly those. */
  lemma SevenBits(g: nat, r: nat, y: nat, b: nat, o: nat, d: nat, u: nat)
    requires g in {0, 1} && r in {0, 2} && y in {0, 4} && b in {0, 8} && o in {0, 16} && d in {0, 32} && u in {0, 64}
    ensures var m := g + r + y + b + o + d + u;
      && m < 128 && (HasBit(m, 1) <==> g == 1) && (HasBit(m, 2) <==> r == 2) && (HasBit(m, 4) <==> y == 4)
      && (HasBit(m, 8) <==> b == 8) && (HasBit(m, 16) <==> o == 16) && (HasBit(m, 32) <==> d == 32)
      && (HasBit(m, 64) <==> u == 64)
  {
    var r1, y1, b1 := if r == 2 then 1 else 0, if y == 4 then 1 else 0, if b == 8 then 1 else 0;
    var o1, d1, u1 := if o == 16 then 1 else 0, if d == 32 then 1 else 0, if u == 64 then 1 else 0;
    var m := g + r + y + b + o + d + u;
    BitAt(m, 1, r1 + 2 * y1 + 4 * b1 + 8 * o1 + 16 * d1 + 32 * u1, g, 0);
    BitAt(m, 2, y1 + 2 * b1 + 4 * o1 + 8 * d1 + 16 * u1, r1, g);
    BitAt(m, 4, b1 + 2 * o1 + 4 * d1 + 8 * u1, y1, g + r);
    BitAt(m, 8, o1 + 2 * d1 + 4 * u1, b1, g + r + y);
    BitAt(m, 16, d1 + 2 * u1, o1, g + r + y + b);
    BitAt(m, 32, u1, d1, g + r + y + b + o);
    BitAt(m, 64, 0, u1, g + r + y + b + o + d);
  }
}
