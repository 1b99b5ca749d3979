/** The fretboard's command path (t1s_detector.c): the latest command goes to the guitar
  * node and to fauxmote, each channel with one frame in flight, a dirty flag and refusals;
  * a closed gate sends one release and then stays silent. */
module CommandLink {
  import opened Words

  const CMD_BIT_MASK := 0x80          // `mask & 0x7F` is `mask % 0x80`
  const CMD_REFRESH_MS := 50
  const MF_MSG_GUITAR := 0x01
  const MF_WHAMMY_REST := 0x10

  /** One transmit channel: `*_dirty`, `*_busy`, the staging buffer's body, and everything
    * the MAC-PHY has accepted from it so far. */
  datatype Channel = Channel(dirty: bool, busy: bool, body: seq<nat>, accepted: seq<seq<nat>>)

  datatype Link = Link(cmd: nat, enabled: bool, plcaUp: bool, refreshMs: nat, guitar: Channel, fauxmote: Channel)

  const QUIET := Channel(false, false, [], [])
  const BOOT := Link(0, false, false, 0, QUIET, QUIET)

  /** The two frame bodies for a command. */
  function GuitarBody(cmd: nat): seq<nat> { [cmd % CMD_BIT_MASK] }

  function FauxmoteBody(cmd: nat): seq<nat> { [MF_MSG_GUITAR, cmd % CMD_BIT_MASK, MF_WHAMMY_REST, 0] }

  // ----- the API calls and callbacks -----

  function MarkDirty(s: Link): Link
  {
    s.(guitar := s.guitar.(dirty := true), fauxmote := s.fauxmote.(dirty := true))
  }

  /** `T1SDetector_SetCommand`. */
  function SetCommand(s: Link, mask: nat, active: bool): Link
  {
    var m := mask % CMD_BIT_MASK;
    if !active then (if s.enabled then MarkDirty(s.(enabled := false, cmd := 0)) else s)
    else
      var open := if s.enabled then s else MarkDirty(s.(enabled := true));
      if m != open.cmd then MarkDirty(open.(cmd := m)) else open
  }

  /** `flush_command` / `flush_fauxmote`: stages the body and offers it to the MAC-PHY,
    * which `accepts` or refuses. */
  function Flush(c: Channel, body: seq<nat>, accepts: bool): Channel
  {
    if !c.dirty || c.busy then c
    else if accepts then Channel(false, true, body, c.accepted + [body])
    else c.(body := body)
  }

  /** The command part of `T1SDetector_Tasks`. */
  function Tasks(s: Link, now: nat, guitarAccepts: bool, fauxmoteAccepts: bool): Link
  {
    if !s.plcaUp then s else
    var due := s.enabled && Wrap32(now - s.refreshMs) >= CMD_REFRESH_MS;
    var r := if due then MarkDirty(s.(refreshMs := now)) else s;
    r.(guitar := Flush(r.guitar, GuitarBody(r.cmd), guitarAccepts),
       fauxmote := Flush(r.fauxmote, FauxmoteBody(r.cmd), fauxmoteAccepts))
  }

  /** Everything that can happen to the module, in any order. */
  datatype Event =
    | Command(mask: nat, active: bool)                       // main loop, any mask, armed or not
    | Pass(now: nat, guitarAccepts: bool, fauxmoteAccepts: bool)
    | GuitarDone                                             // cmd_tx_done
    | FauxmoteDone                                           // fx_tx_done
    | Plca(up: bool)                                         // on_plca_status

  function Next(s: Link, e: Event): Link
  {
    match e
    case Command(mask, active) => SetCommand(s, mask, active)
    case Pass(now, g, f) => Tasks(s, now, g, f)
    case GuitarDone => s.(guitar := s.guitar.(busy := false))
    case FauxmoteDone => s.(fauxmote := s.fauxmote.(busy := false))
    case Plca(up) => s.(plcaUp := up)
  }

  function Run(s: Link, events: seq<Event>): Link
  {
    if events == [] then s else Next(Run(s, events[..|events| - 1]), events[|events| - 1])
  }

  // ----- the module -----

  class T1SDetector {
    var cmd: nat
    var cmdEnabled: bool
    var cmdDirty: bool
    var cmdBusy: bool
    var cmdBody: seq<nat>
    var cmdRefreshMs: nat
    var fxDirty: bool
    var fxBusy: bool
    var fxBody: seq<nat>
    var plcaOp: bool
    ghost var cmdAccepted: seq<seq<nat>>
    ghost var fxAccepted: seq<seq<nat>>

    ghost function Now(): Link
      reads this
    {
      Link(cmd, cmdEnabled, plcaOp, cmdRefreshMs, Channel(cmdDirty, cmdBusy, cmdBody, cmdAccepted),
           Channel(fxDirty, fxBusy, fxBody, fxAccepted))
    }

    constructor ()
      ensures Now() == BOOT
    {
      cmd, cmdEnabled, cmdDirty, cmdBusy, cmdBody, cmdRefreshMs := 0, false, false, false, [], 0;
      fxDirty, fxBusy, fxBody, plcaOp := false, false, [], false;
      cmdAccepted, fxAccepted := [], [];
    }

    method SetCommandMask(mask: nat, active: bool)
      modifies this`cmd, this`cmdEnabled, this`cmdDirty, this`fxDirty
      ensures Now() == SetCommand(old(Now()), mask, active)
    {
      var m := mask % CMD_BIT_MASK;
      if !active {
        if cmdEnabled {
          cmdEnabled := false;
          cmd := 0;
          cmdDirty := true;
          fxDirty := true;
        }
        return;
      }
      if !cmdEnabled {
        cmdEnabled := true;
        cmdDirty := true;
        fxDirty := true;
      }
      if m != cmd {
        cmd := m;
        cmdDirty := true;
        fxDirty := true;
      }
    }

    /** The command refresh and the two flushes of `T1SDetector_Tasks`. */
    method ServiceCommands(now: nat, guitarAccepts: bool, fauxmoteAccepts: bool)
      modifies this
      ensures Now() == Tasks(old(Now()), now, guitarAccepts, fauxmoteAccepts)
    {
      if !plcaOp { return; }
      if cmdEnabled && Wrap32(now - cmdRefreshMs) >= CMD_REFRESH_MS {
        cmdRefreshMs := now;
        cmdDirty := true;
        fxDirty := true;
      }
      FlushCommand(guitarAccepts);
      FlushFauxmote(fauxmoteAccepts);
    }

    method FlushCommand(accepts: bool)
      modifies this`cmdBody, this`cmdBusy, this`cmdDirty, this`cmdAccepted
      ensures Now() == old(Now()).(guitar := Flush(old(Now()).guitar, GuitarBody(cmd), accepts))
    {
      if !cmdDirty || cmdBusy { return; }
      cmdBody := [cmd % CMD_BIT_MASK];
      cmdBusy := true;
      if accepts {
        cmdDirty := false;
        cmdAccepted := cmdAccepted + [cmdBody];
      } else {
        cmdBusy := false;   // retry next pass
      }
    }

    method FlushFauxmote(accepts: bool)
      modifies this`fxBody, this`fxBusy, this`fxDirty, this`fxAccepted
      ensures Now() == old(Now()).(fauxmote := Flush(old(Now()).fauxmote, FauxmoteBody(cmd), accepts))
    {
      if !fxDirty || fxBusy { return; }
      assert [MF_MSG_GUITAR] + [cmd % CMD_BIT_MASK, MF_WHAMMY_REST, 0] == FauxmoteBody(cmd);
      var sent := SendFauxmote(MF_MSG_GUITAR, [cmd % CMD_BIT_MASK, MF_WHAMMY_REST, 0], accepts);
      if sent { fxDirty := false; }
    }

    /** `send_fauxmote`. */
    method SendFauxmote(kind: nat, payload: seq<nat>, accepts: bool) returns (sent: bool)
      modifies this`fxBody, this`fxBusy, this`fxAccepted
      ensures sent == (!old(fxBusy) && |payload| <= 8 && accepts)
      ensures fxBusy == (old(fxBusy) || sent)
      ensures fxBody == if !old(fxBusy) && |payload| <= 8 then [kind] + payload else old(fxBody)
      ensures fxAccepted == if sent then old(fxAccepted) + [[kind] + payload] else old(fxAccepted)
    {
      if fxBusy || |payload| > 8 { return false; }
      fxBody := [kind] + payload;
      fxBusy := true;
      if !accepts {
        fxBusy := false;
        return false;
      }
      fxAccepted := fxAccepted + [fxBody];
      return true;
    }

    method CmdTxDone()
      modifies this`cmdBusy
      ensures Now() == Next(old(Now()), GuitarDone)
    {
      cmdBusy := false;
    }

    method FxTxDone()
      modifies this`fxBusy
      ensures Now() == Next(old(Now()), FauxmoteDone)
    {
      fxBusy := false;
    }
  }

  // ----- what holds on every interleaving -----

  /** The receiver's view: what it was last sent, or the released state if nothing yet. */
  function LastSent(c: Channel, released: seq<nat>): seq<nat>
  {
    if c.accepted == [] then released else c.accepted[|c.accepted| - 1]
  }

  ghost predicate ChannelOk(c: Channel, current: seq<nat>, released: seq<nat>)
  {
    && (!c.dirty ==> LastSent(c, released) == current)
    && (c.busy ==> c.accepted != [] && c.body == c.accepted[|c.accepted| - 1])
  }

  /** A clean channel has last sent exactly the current command, a frame in flight keeps its
    * buffer untouched, and a closed gate commands "all released". */
  ghost predicate Coherent(s: Link)
  {
    && s.cmd < CMD_BIT_MASK
    && (!s.enabled ==> s.cmd == 0)
    && ChannelOk(s.guitar, GuitarBody(s.cmd), GuitarBody(0))
    && ChannelOk(s.fauxmote, FauxmoteBody(s.cmd), FauxmoteBody(0))
  }

  lemma NextKeepsCoherent(s: Link, e: Event)
    requires Coherent(s)
    ensures Coherent(Next(s, e))
  {
  }

  lemma {:induction false} AlwaysCoherent(events: seq<Event>)
    ensures Coherent(Run(BOOT, events))
  {
    if events != [] {
      AlwaysCoherent(events[..|events| - 1]);
      NextKeepsCoherent(Run(BOOT, events[..|events| - 1]), events[|events| - 1]);
    }
  }

  /** Once the gate is closed, a channel's release is either still pending or the one frame
    * accepted since, and after it nothing more is sent. */
  ghost predicate SilentAfter(before: Channel, now: Channel, released: seq<nat>)
  {
    || (now.accepted == before.accepted && now.dirty == before.dirty)
    || (before.dirty && !now.dirty && now.accepted == before.accepted + [released])
  }

  /** No event of the run opens the gate. */
  predicate StaysDisarmed(events: seq<Event>)
  {
    forall i | 0 <= i < |events| :: !(events[i].Command? && events[i].active)
  }

  lemma ClosedStep(s: Link, e: Event)
    requires Coherent(s) && !s.enabled && !(e.Command? && e.active)
    ensures !Next(s, e).enabled
    ensures SilentAfter(s.guitar, Next(s, e).guitar, GuitarBody(0))
    ensures SilentAfter(s.fauxmote, Next(s, e).fauxmote, FauxmoteBody(0))
  {
  }

  /** From any reachable state with the gate closed, however refusals, completions, PLCA
    * loss and further disarmed commands interleave: each channel sends at most its pending
    * release and is then silent. */
  lemma {:induction false} DisarmedGoesSilent(s: Link, events: seq<Event>)
    requires Coherent(s) && !s.enabled && StaysDisarmed(events)
    ensures var r := Run(s, events);
            Coherent(r) && !r.enabled &&
            SilentAfter(s.guitar, r.guitar, GuitarBody(0)) && SilentAfter(s.fauxmote, r.fauxmote, FauxmoteBody(0))
  {
    if events != [] {
      var front, e := events[..|events| - 1], events[|events| - 1];
      DisarmedGoesSilent(s, front);
      NextKeepsCoherent(Run(s, front), e);
      ClosedStep(Run(s, front), e);
    }
  }

  /** Disarming: closing an open gate queues exactly one release on each channel, and every
    * later frame until re-arming is that release. */
  lemma DisarmSendsOneRelease(events: seq<Event>, mask: nat, later: seq<Event>)
    requires StaysDisarmed(later) && Run(BOOT, events).enabled
    ensures var s := Next(Run(BOOT, events), Command(mask, false));
            var r := Run(s, later);
            s.guitar.dirty && s.fauxmote.dirty &&
            (if r.guitar.dirty then r.guitar.accepted == s.guitar.accepted
             else r.guitar.accepted == s.guitar.accepted + [GuitarBody(0)]) &&
            (if r.fauxmote.dirty then r.fauxmote.accepted == s.fauxmote.accepted
             else r.fauxmote.accepted == s.fauxmote.accepted + [FauxmoteBody(0)])
  {
    var s0 := Run(BOOT, events);
    AlwaysCoherent(events);
    NextKeepsCoherent(s0, Command(mask, false));
    DisarmedGoesSilent(Next(s0, Command(mask, false)), later);
  }

  /** A pass on a live link with idle buffers that are accepted leaves both receivers with
    * the current command; a refusal on one channel does not touch the other. */
  lemma PassDelivers(s: Link, now: nat, guitarAccepts: bool, fauxmoteAccepts: bool)
    requires Coherent(s) && s.plcaUp
    ensures var r := Next(s, Pass(now, guitarAccepts, fauxmoteAccepts));
            (guitarAccepts && !s.guitar.busy ==> !r.guitar.dirty && LastSent(r.guitar, GuitarBody(0)) == GuitarBody(s.cmd)) &&
            (fauxmoteAccepts && !s.fauxmote.busy ==>
               !r.fauxmote.dirty && LastSent(r.fauxmote, FauxmoteBody(0)) == FauxmoteBody(s.cmd)) &&
            r.guitar == Next(s, Pass(now, guitarAccepts, !fauxmoteAccepts)).guitar &&
            r.fauxmote == Next(s, Pass(now, !guitarAccepts, fauxmoteAccepts)).fauxmote
  {
  }

  /** Without PLCA nothing is sent. */
  lemma {:induction false} SilentWithoutPlca(s: Link, events: seq<Event>)
    requires !s.plcaUp && forall i | 0 <= i < |events| :: events[i] != Plca(true)
    ensures var r := Run(s, events);
            !r.plcaUp && r.guitar.accepted == s.guitar.accepted && r.fauxmote.accepted == s.fauxmote.accepted
  {
    if events != [] {
      SilentWithoutPlca(s, events[..|events| - 1]);
      assert events[|events| - 1] != Plca(true);
    }
  }

  // ----- what is sent, from the events alone -----

  /** The latest command of the main loop. */
  function LatestCommand(events: seq<Event>): (c: Event)
    ensures c.Command?
  {
    if events == [] then Command(0, false)
    else if events[|events| - 1].Command? then events[|events| - 1]
    else LatestCommand(events[..|events| - 1])
  }

  /** The bus state last reported. */
  function LatestPlca(events: seq<Event>): bool
  {
    if events == [] then false
    else if events[|events| - 1].Plca? then events[|events| - 1].up
    else LatestPlca(events[..|events| - 1])
  }

  /** The command that ought to be with the receivers: the latest mask without its top bit while armed,
    * all released otherwise. */
  function Commanded(events: seq<Event>): nat
  {
    var c := LatestCommand(events);
    if c.active then c.mask % 0x80 else 0
  }

  /** The gate is open exactly when the latest command is active, and then its mask is the current one. */
  lemma {:induction false} FollowsLatest(events: seq<Event>)
    ensures var s := Run(BOOT, events);
      && (s.enabled <==> LatestCommand(events).active)
      && s.cmd == Commanded(events)
      && (s.plcaUp <==> LatestPlca(events))
  {
    if events != [] {
      FollowsLatest(events[..|events| - 1]);
    }
  }

  /** An accepted pass on a live bus leaves each idle receiver with the latest command. */
  lemma DeliversLatest(events: seq<Event>, now: nat, guitarAccepts: bool, fauxmoteAccepts: bool)
    requires LatestPlca(events)
    ensures var s, m := Run(BOOT, events), Commanded(events);
            var r := Next(s, Pass(now, guitarAccepts, fauxmoteAccepts));
      && (guitarAccepts && !s.guitar.busy ==> LastSent(r.guitar, [0]) == [m])
      && (fauxmoteAccepts && !s.fauxmote.busy ==> LastSent(r.fauxmote, [0x01, 0, 0x10, 0]) == [0x01, m, 0x10, 0])
  {
    AlwaysCoherent(events);
    FollowsLatest(events);
    PassDelivers(Run(BOOT, events), now, guitarAccepts, fauxmoteAccepts);
  }

  /** A pass sends on a channel exactly when the bus is up, the buffer is idle, the frame is accepted and
    * either something is pending or an open gate was last refreshed 50 ms or more ago; it changes nothing
    * but the channels and the time of the refresh. */
  lemma PassSendsExactly(s: Link, now: nat, guitarAccepts: bool, fauxmoteAccepts: bool)
    requires s.cmd < 0x80
    ensures var r := Next(s, Pass(now, guitarAccepts, fauxmoteAccepts));
            var due := s.plcaUp && s.enabled && (now - s.refreshMs) % 0x1_0000_0000 >= 50;
            var g := s.plcaUp && !s.guitar.busy && guitarAccepts && (s.guitar.dirty || due);
            var f := s.plcaUp && !s.fauxmote.busy && fauxmoteAccepts && (s.fauxmote.dirty || due);
      && r.guitar.accepted == s.guitar.accepted + (if g then [[s.cmd]] else [])
      && r.fauxmote.accepted == s.fauxmote.accepted + (if f then [[0x01, s.cmd, 0x10, 0]] else [])
      && r.guitar.dirty == ((s.guitar.dirty || due) && !g) && r.guitar.busy == (s.guitar.busy || g)
      && r.fauxmote.dirty == ((s.fauxmote.dirty || due) && !f) && r.fauxmote.busy == (s.fauxmote.busy || f)
      && r.refreshMs == (if due then now else s.refreshMs)
      && r.cmd == s.cmd && r.enabled == s.enabled && r.plcaUp == s.plcaUp
  {
    assert s.cmd % CMD_BIT_MASK == s.cmd by { Remainder(s.cmd); }
  }

  lemma Remainder(x: nat)
    requires x < 0x80
    ensures x % 0x80 == x
  {
  }

  /** A command marks both channels exactly when it opens or closes the gate or changes the mask. */
  lemma CommandMarks(events: seq<Event>, mask: nat, active: bool)
    ensures var s, was := Run(BOOT, events), LatestCommand(events);
            var r := Next(s, Command(mask, active));
            var changed := active != was.active || (active && mask % 0x80 != was.mask % 0x80);
      && r.guitar == s.guitar.(dirty := s.guitar.dirty || changed)
      && r.fauxmote == s.fauxmote.(dirty := s.fauxmote.dirty || changed)
      && r.plcaUp == s.plcaUp && r.refreshMs == s.refreshMs
  {
    FollowsLatest(events);
  }

  /** The latest event that was a completion or an accepted frame of the guitar channel was a frame. */
  predicate GuitarInFlight(events: seq<Event>)
  {
    if events == [] then false else
    var front, e := events[..|events| - 1], events[|events| - 1];
    if e == GuitarDone then false
    else |Run(BOOT, events).guitar.accepted| > |Run(BOOT, front).guitar.accepted| || GuitarInFlight(front)
  }

  /** The same for fauxmote. */
  predicate FauxmoteInFlight(events: seq<Event>)
  {
    if events == [] then false else
    var front, e := events[..|events| - 1], events[|events| - 1];
    if e == FauxmoteDone then false
    else |Run(BOOT, events).fauxmote.accepted| > |Run(BOOT, front).fauxmote.accepted| || FauxmoteInFlight(front)
  }

  /** The guitar channel is busy exactly from an accepted frame to its completion. */
  lemma {:induction false} GuitarBusyExactly(events: seq<Event>)
    ensures Run(BOOT, events).guitar.busy <==> GuitarInFlight(events)
  {
    if events != [] { GuitarBusyExactly(events[..|events| - 1]); }
  }

  /** So is the fauxmote channel. */
  lemma {:induction false} FauxmoteBusyExactly(events: seq<Event>)
    ensures Run(BOOT, events).fauxmote.busy <==> FauxmoteInFlight(events)
  {
    if events != [] { FauxmoteBusyExactly(events[..|events| - 1]); }
  }
}
