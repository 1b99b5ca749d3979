/** The simulated menu (simgame.py): a state machine over the menu graph with sticky
  * cursors, an optional part screen and at most one misfired GREEN. */
module SimGame {
  import opened Wrappers
  import opened NavGraph

  datatype Config = Config(songCount: nat, sectionCount: nat, partPresent: bool,
                           sticky: map<Screen, nat>, misfire: Option<(Screen, Screen)>)

  /** The `chosen` dict. */
  datatype Chosen = Chosen(song: Option<int>, part: Option<Item>, difficulty: Option<int>,
                           section: Option<int>, speed: Option<int>)

  const NOTHING := Chosen(None, None, None, None, None)

  datatype Sim = Sim(screen: Screen, selection: int, chosen: Chosen, loading: nat, misfired: bool)

  const LOADING_TICKS := 2

  /** `MENU_LAYOUTS`: the static lists, in screen order. */
  function Layout(screen: Screen): Option<seq<Item>>
  {
    match screen
    case MainMenu => Some([Career, CoOpCareer, Quickplay, Multiplayer, Training, Options, NintendoWfc])
    case DifficultySelect => Some([Easy, Medium, Hard, Expert])
    case SpeedSelect => Some([FullSpeed, Slow, Slower, Slowest])
    case PauseMenu => Some([Resume, Restart, Options, ChangeSpeed, ChangeSection, NewSong, Quit])
    case PracticeEndMenu => Some([Continue, Restart, ChangeSpeed, ChangeSection, Quit])
    case QuitConfirm => Some([Cancel, Quit])
    case TrainingMenu => Some([Tutorials, Practice])
    case PartSelect => Some([Lead, Rhythm])
    case _ => None
  }

  /** `index_of`: the first occurrence; -1 where the source raises. */
  function IndexOf(items: seq<Item>, item: Item, from: nat): int
    decreases |items| - from
  {
    if from >= |items| then -1 else if items[from] == item then from else IndexOf(items, item, from + 1)
  }

  /** `PARENT`: where RED leads. */
  function Parent(screen: Screen): Option<Screen>
  {
    match screen
    case TrainingMenu => Some(MainMenu)
    case TutorialsMenu => Some(TrainingMenu)
    case SongSelect => Some(TrainingMenu)
    case PartSelect => Some(SongSelect)
    case DifficultySelect => Some(PartSelect)
    case SectionSelect => Some(DifficultySelect)
    case SpeedSelect => Some(SectionSelect)
    case QuitConfirm => Some(PauseMenu)
    case PauseMenu => Some(InSong)
    case _ => None
  }

  function Size(cfg: Config, screen: Screen): int
  {
    if screen == SongSelect then cfg.songCount
    else if screen == SectionSelect then cfg.sectionCount
    else if Layout(screen).Some? then |Layout(screen).value| else 1
  }

  /** The cursor a screen enters with. */
  function Entry(cfg: Config, screen: Screen): int
  {
    var wanted := if screen in cfg.sticky then cfg.sticky[screen] else 0;
    var last := if Size(cfg, screen) >= 1 then Size(cfg, screen) - 1 else 0;
    if wanted < last then wanted else last
  }

  function Initial(cfg: Config, start: Screen): Sim { Sim(start, Entry(cfg, start), NOTHING, 0, false) }

  function Enter(cfg: Config, s: Sim, screen: Screen, chosen: Chosen): Sim
  {
    Sim(screen, Entry(cfg, screen), chosen, if screen == Loading then LOADING_TICKS else s.loading, s.misfired)
  }

  /** `observe`: loading advances as it is looked at. */
  function Observe(cfg: Config, s: Sim): Sim
  {
    if s.screen != Loading then s else
    var ticked := s.(loading := if s.loading > 0 then s.loading - 1 else 0);
    if ticked.loading == 0 then Enter(cfg, ticked, InSong, ticked.chosen) else ticked
  }

  /** `_green_target`: where GREEN leads and what it chooses. */
  function GreenTarget(cfg: Config, s: Sim): Option<(Screen, Chosen)>
  {
    var sel, c := s.selection, s.chosen;
    match s.screen
    case MainMenu => if sel == 4 then Some((TrainingMenu, c)) else None
    case TrainingMenu => Some((if sel == 1 then SongSelect else TutorialsMenu, c))
    case SongSelect => Some((if cfg.partPresent then PartSelect else DifficultySelect, c.(song := Some(sel))))
    case PartSelect => Some((DifficultySelect, c.(part := Some(if sel == 0 then Lead else Rhythm))))
    case DifficultySelect => Some((SectionSelect, c.(difficulty := Some(sel))))
    case SectionSelect => Some((SpeedSelect, c.(section := Some(sel))))
    case SpeedSelect => Some((Loading, c.(speed := Some(sel))))
    case PauseMenu =>
      (match sel
       case 0 => Some((InSong, c)) case 1 => Some((Loading, c)) case 3 => Some((SpeedSelect, c))
       case 4 => Some((SectionSelect, c)) case 5 => Some((SongSelect, c)) case 6 => Some((QuitConfirm, c))
       case _ => None)
    case QuitConfirm => Some((if sel == 0 then PauseMenu else MainMenu, c))
    case PracticeEndMenu =>
      (match sel
       case 0 => Some((SongSelect, c)) case 1 => Some((Loading, c)) case 2 => Some((SpeedSelect, c))
       case 3 => Some((SectionSelect, c)) case 4 => Some((MainMenu, c)) case _ => None)
    case _ => None
  }

  function Green(cfg: Config, s: Sim): Sim
  {
    var target := GreenTarget(cfg, s);
    if target == None then s
    else if cfg.misfire.Some? && !s.misfired && cfg.misfire.value.0 == s.screen then
      Enter(cfg, s.(misfired := true), cfg.misfire.value.1, s.chosen)
    else Enter(cfg, s, target.value.0, target.value.1)
  }

  /** `apply`. */
  function Apply(cfg: Config, s: Sim, inp: MenuInput): Sim
  {
    match inp
    case StrumDown => s.(selection := if s.selection + 1 < Size(cfg, s.screen) - 1 then s.selection + 1 else Size(cfg, s.screen) - 1)
    case StrumUp => s.(selection := if s.selection - 1 > 0 then s.selection - 1 else 0)
    case RedBtn => if Parent(s.screen).Some? then Enter(cfg, s, Parent(s.screen).value, s.chosen) else s
    case PlusBtn => if s.screen == InSong then Enter(cfg, s, PauseMenu, s.chosen) else s
    case GreenBtn => Green(cfg, s)
    case _ => s
  }

  class Game {
    const cfg: Config
    var state: Sim

    constructor (start: Screen, cfg: Config)
      ensures this.cfg == cfg && state == Initial(cfg, start)
    {
      this.cfg := cfg;
      state := Initial(cfg, start);
    }

    method ObserveState() returns (screen: Screen, selection: int)
      modifies this
      ensures state == Observe(cfg, old(state)) && screen == state.screen && selection == state.selection
    {
      if state.screen == Loading {
        if state.loading > 0 { state := state.(loading := state.loading - 1); }
        if state.loading == 0 { state := Enter(cfg, state, InSong, state.chosen); }
      }
      return state.screen, state.selection;
    }

    method Send(inp: MenuInput)
      modifies this
      ensures state == Apply(cfg, old(state), inp)
    {
      if inp == StrumDown {
        var last := Size(cfg, state.screen) - 1;
        state := state.(selection := if state.selection + 1 < last then state.selection + 1 else last);
      } else if inp == StrumUp {
        state := state.(selection := if state.selection - 1 > 0 then state.selection - 1 else 0);
      } else if inp == RedBtn {
        if Parent(state.screen).Some? { state := Enter(cfg, state, Parent(state.screen).value, state.chosen); }
      } else if inp == PlusBtn {
        if state.screen == InSong { state := Enter(cfg, state, PauseMenu, state.chosen); }
      } else if inp == GreenBtn {
        PressGreen();
      }
    }

    method PressGreen()
      modifies this
      ensures state == Green(cfg, old(state))
    {
      var target := GreenTarget(cfg, state);
      if target == None { return; }
      if cfg.misfire.Some? && !state.misfired && cfg.misfire.value.0 == state.screen {
        state := state.(misfired := true);
        state := Enter(cfg, state, cfg.misfire.value.1, state.chosen);
        return;
      }
      state := Enter(cfg, state, target.value.0, target.value.1);
    }
  }
}
