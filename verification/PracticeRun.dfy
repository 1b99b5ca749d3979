/** What the practice-run plan achieves on every simulated menu: arbitrary sticky cursors,
  * part screen present or absent, any list lengths, and at most one misfire anywhere. */
module PracticeRun {
  import opened Wrappers
  import opened NavGraph
  import opened SimGame
  import opened Navigator

  // ----- cursor moves -----

  lemma {:induction false} DownMoves(cfg: Config, s: Sim, n: nat)
    requires s.selection <= Size(cfg, s.screen) - 1
    ensures Moves(cfg, s, StrumDown, n)
         == s.(selection := Min(s.selection + n, Size(cfg, s.screen) - 1))
  {
    if n > 0 { DownMoves(cfg, s, n - 1); }
  }

  lemma {:induction false} UpMoves(cfg: Config, s: Sim, n: nat)
    requires s.selection >= 0
    ensures Moves(cfg, s, StrumUp, n) == s.(selection := if s.selection - n > 0 then s.selection - n else 0)
  {
    if n > 0 { UpMoves(cfg, s, n - 1); }
  }

  /** Where the cursor ends when asked for `target`: clamped to the list and to 64 moves. */
  function Reached(cur: int, target: int, size: int): int
  {
    if target > cur then Min(cur + Min(target - cur, MAX_MOVE), size - 1)
    else if cur - Min(cur - target, MAX_MOVE) > 0 then cur - Min(cur - target, MAX_MOVE) else 0
  }

  /** A cursor inside its list. */
  predicate InList(cfg: Config, s: Sim) { 0 <= s.selection < Size(cfg, s.screen) }

  lemma SelectMoves(cfg: Config, s: Sim, target: int)
    requires s.screen != Loading && InList(cfg, s)
    ensures SelectTo(cfg, s, target) == Green(cfg, s.(selection := Reached(s.selection, target, Size(cfg, s.screen))))
  {
    var delta := target - s.selection;
    if delta > 0 {
      DownMoves(cfg, s, Min(delta, MAX_MOVE));
    } else {
      UpMoves(cfg, s, Min(-delta, MAX_MOVE));
    }
  }

  /** The cursor reaches the target exactly when it exists and is at most 64 moves away. */
  lemma ReachedExactly(cur: int, target: int, size: int)
    requires 0 <= cur < size
    ensures Reached(cur, target, size) == target <==> 0 <= target < size && target - cur <= MAX_MOVE && cur - target <= MAX_MOVE
  {
  }

  lemma {:induction false} Climb(cfg: Config, s: Sim, prev: Option<int>, n: nat)
    requires s.screen != Loading && s.selection >= 0 && (prev.Some? ==> prev.value > s.selection)
    ensures ClimbToTop(cfg, s, prev, n) == s.(selection := if s.selection > n then s.selection - n else 0)
    decreases n
  {
    if n > 0 && s.selection != 0 {
      Climb(cfg, Apply(cfg, s, StrumUp), Some(s.selection), n - 1);
    }
  }

  // ----- the plan, screen by screen -----

  /** The plan's screens in order, the goal last. */
  function Screen(i: nat): NavGraph.Screen
  {
    match i
    case 0 => MainMenu case 1 => TrainingMenu case 2 => SongSelect case 3 => PartSelect case 4 => DifficultySelect
    case 5 => SectionSelect case 6 => SpeedSelect case 7 => Loading case _ => InSong
  }

  datatype Request = Request(song: int, difficulty: Item, part: Item)

  predicate RequestOk(q: Request)
  {
    q.difficulty in [Easy, Medium, Hard, Expert] && q.part in [Lead, Rhythm]
  }

  function PlanOf(q: Request): Plan { PracticePlan(q.song, q.difficulty, q.part) }

  predicate ListsOk(cfg: Config) { cfg.songCount >= 1 && cfg.sectionCount >= 1 }

  function DifficultyIndex(difficulty: Item): int
  {
    match difficulty case Easy => 0 case Medium => 1 case Hard => 2 case _ => 3
  }

  /** What the controller chooses on screen `i`, given the cursor that screen enters with. */
  function Choose(cfg: Config, q: Request, i: nat, c: Chosen): Chosen
  {
    match i
    case 2 => c.(song := Some(Reached(Entry(cfg, SongSelect), q.song, cfg.songCount)))
    case 3 => c.(part := Some(q.part))
    case 4 => c.(difficulty := Some(DifficultyIndex(q.difficulty)))
    case 5 => c.(section := Some(if Entry(cfg, SectionSelect) > MAX_MOVE then Entry(cfg, SectionSelect) - MAX_MOVE else 0))
    case 6 => c.(speed := Some(0))
    case _ => c
  }

  /** The screen after `i`; an absent part screen is passed over. */
  function After(cfg: Config, i: nat): nat { if i == 2 && !cfg.partPresent then 4 else i + 1 }

  /** Whether the next GREEN that works on screen `i` misfires. */
  predicate Misfires(cfg: Config, s: Sim, i: nat)
  {
    cfg.misfire.Some? && !s.misfired && cfg.misfire.value.0 == Screen(i)
  }

  /** A screen just entered, or seen for the first time. */
  predicate At(cfg: Config, s: Sim, screen: NavGraph.Screen)
  {
    s.screen == screen && s.selection == Entry(cfg, screen) && (screen == Loading ==> s.loading == LOADING_TICKS)
  }

  lemma EntryInList(cfg: Config, screen: NavGraph.Screen)
    requires Size(cfg, screen) >= 1
    ensures 0 <= Entry(cfg, screen) < Size(cfg, screen)
  {
  }

  lemma StepsFound(q: Request, i: nat)
    requires i <= 7
    ensures StepFor(PlanOf(q).steps, Screen(i), 0) == Some(PlanOf(q).steps[i])
  {
    var steps := PlanOf(q).steps;
    FindStep(steps, i, 0);
  }

  lemma {:induction false} FindStep(steps: seq<Step>, i: nat, from: nat)
    requires i < |steps| && from <= i
    requires forall j | 0 <= j < i :: steps[j].expectedFrom != steps[i].expectedFrom
    ensures StepFor(steps, steps[i].expectedFrom, from) == Some(steps[i])
    decreases i - from
  {
    if from < i { FindStep(steps, i, from + 1); }
  }

  /** The menu after the controller has dealt with screen `i`. */
  function Dealt(cfg: Config, q: Request, s: Sim, i: nat): Sim
    requires i <= 6
  {
    if Misfires(cfg, s, i) then Enter(cfg, s.(misfired := true), cfg.misfire.value.1, s.chosen)
    else Enter(cfg, s, Screen(After(cfg, i)), Choose(cfg, q, i, s.chosen))
  }

  lemma SelectItemMoves(cfg: Config, s: Sim, item: Item, index: int)
    requires s.screen != Loading && InList(cfg, s) && Layout(s.screen).Some?
    requires IndexOf(Layout(s.screen).value, item, 0) == index && 0 <= index < Size(cfg, s.screen) <= 8
    ensures Execute(cfg, s, SelectItem(item)) == Ok(Green(cfg, s.(selection := index)))
  {
    SelectMoves(cfg, s, index);
    ReachedExactly(s.selection, index, Size(cfg, s.screen));
  }

  lemma DifficultyListed(difficulty: Item)
    requires difficulty in [Easy, Medium, Hard, Expert]
    ensures IndexOf(Layout(DifficultySelect).value, difficulty, 0) == DifficultyIndex(difficulty)
  {
    var items := Layout(DifficultySelect).value;
    assert items[0] == Easy && items[1] == Medium && items[2] == Hard && items[3] == Expert;
  }

  lemma PartListed(part: Item)
    requires part in [Lead, Rhythm]
    ensures IndexOf(Layout(PartSelect).value, part, 0) == if part == Lead then 0 else 1
  {
    var items := Layout(PartSelect).value;
    assert items[0] == Lead && items[1] == Rhythm;
  }

  lemma GreenDeals(cfg: Config, q: Request, s: Sim, i: nat, sel: int)
    requires i <= 6 && s.screen == Screen(i)
    requires GreenTarget(cfg, s.(selection := sel)) == Some((Screen(After(cfg, i)), Choose(cfg, q, i, s.chosen)))
    ensures Green(cfg, s.(selection := sel)) == Dealt(cfg, q, s, i)
  {
  }

  lemma DealsWithItem(cfg: Config, q: Request, s: Sim, i: nat, item: Item, index: int)
    requires i in [0, 1, 3, 4] && At(cfg, s, Screen(i))
    requires IndexOf(Layout(Screen(i)).value, item, 0) == index && 0 <= index < Size(cfg, Screen(i)) <= 8
    requires GreenTarget(cfg, s.(selection := index)) == Some((Screen(After(cfg, i)), Choose(cfg, q, i, s.chosen)))
    ensures Execute(cfg, s, SelectItem(item)) == Ok(Dealt(cfg, q, s, i))
  {
    EntryInList(cfg, Screen(i));
    SelectItemMoves(cfg, s, item, index);
    GreenDeals(cfg, q, s, i, index);
  }

  lemma DealsWithSong(cfg: Config, q: Request, s: Sim)
    requires ListsOk(cfg) && At(cfg, s, SongSelect)
    ensures Execute(cfg, s, SelectIndex(q.song)) == Ok(Dealt(cfg, q, s, 2))
  {
    EntryInList(cfg, SongSelect);
    SelectMoves(cfg, s, q.song);
    GreenDeals(cfg, q, s, 2, Reached(s.selection, q.song, Size(cfg, SongSelect)));
  }

  lemma DealsWithTop(cfg: Config, q: Request, s: Sim, i: nat)
    requires ListsOk(cfg) && i in [5, 6] && At(cfg, s, Screen(i))
    ensures Execute(cfg, s, SaturateTop) == Ok(Dealt(cfg, q, s, i))
  {
    EntryInList(cfg, Screen(i));
    Climb(cfg, s, None, MAX_MOVE);
    GreenDeals(cfg, q, s, i, if s.selection > MAX_MOVE then s.selection - MAX_MOVE else 0);
  }

  lemma DealsWithPart(cfg: Config, q: Request, s: Sim, i: nat)
    requires RequestOk(q) && i == 3 && At(cfg, s, Screen(i))
    ensures Execute(cfg, s, SelectItem(q.part)) == Ok(Dealt(cfg, q, s, i))
  {
    PartListed(q.part);
    DealsWithItem(cfg, q, s, i, q.part, if q.part == Lead then 0 else 1);
  }

  lemma DealsWithDifficulty(cfg: Config, q: Request, s: Sim, i: nat)
    requires RequestOk(q) && i == 4 && At(cfg, s, Screen(i))
    ensures Execute(cfg, s, SelectItem(q.difficulty)) == Ok(Dealt(cfg, q, s, i))
  {
    DifficultyListed(q.difficulty);
    DealsWithItem(cfg, q, s, i, q.difficulty, DifficultyIndex(q.difficulty));
  }

  lemma DealsWithFirst(cfg: Config, q: Request, s: Sim)
    requires At(cfg, s, MainMenu)
    ensures Execute(cfg, s, SelectItem(Training)) == Ok(Dealt(cfg, q, s, 0))
  {
    DealsWithItem(cfg, q, s, 0, Training, 4);
  }

  lemma DealsWithSecond(cfg: Config, q: Request, s: Sim)
    requires At(cfg, s, TrainingMenu)
    ensures Execute(cfg, s, SelectItem(Practice)) == Ok(Dealt(cfg, q, s, 1))
  {
    DealsWithItem(cfg, q, s, 1, Practice, 1);
  }

  /** The plan's action on screen `i`. */
  function ActionOn(q: Request, i: nat): Action
  {
    match i
    case 0 => SelectItem(Training) case 1 => SelectItem(Practice) case 2 => SelectIndex(q.song)
    case 3 => SelectItem(q.part) case 4 => SelectItem(q.difficulty) case 7 => WaitFor(InSong)
    case _ => SaturateTop
  }

  lemma ActionPlanned(q: Request, i: nat)
    requires i <= 7
    ensures StepFor(PlanOf(q).steps, Screen(i), 0).Some? && StepFor(PlanOf(q).steps, Screen(i), 0).value.action == ActionOn(q, i)
  {
    StepsFound(q, i);
  }

  /** The controller's action on screen `i` of the plan. */
  lemma DealsWith(cfg: Config, q: Request, s: Sim, i: nat)
    requires ListsOk(cfg) && RequestOk(q) && i <= 6 && At(cfg, s, Screen(i))
    ensures Execute(cfg, s, ActionOn(q, i)) == Ok(Dealt(cfg, q, s, i))
  {
    match i {
      case 0 => DealsWithFirst(cfg, q, s);
      case 1 => DealsWithSecond(cfg, q, s);
      case 2 => DealsWithSong(cfg, q, s);
      case 3 => DealsWithPart(cfg, q, s, i);
      case 4 => DealsWithDifficulty(cfg, q, s, i);
      case _ => DealsWithTop(cfg, q, s, i);
    }
  }

  ghost predicate EndsWith(r: Result<Sim, NavError>, c: Chosen)
  {
    r.Ok? && r.value.screen == InSong && r.value.chosen == c
  }

  /** The plan screen from which the run resumes after a misfire onto `w`, if it does. */
  function Landing(w: NavGraph.Screen): Option<nat>
  {
    match w
    case MainMenu => Some(0) case TrainingMenu => Some(1) case SongSelect => Some(2) case PartSelect => Some(3)
    case DifficultySelect => Some(4) case SectionSelect => Some(5) case SpeedSelect => Some(6) case Loading => Some(7)
    case InSong => Some(8)
    case TutorialsMenu => Some(1)   // RED leads back to the training menu
    case PauseMenu => Some(8)       // RED resumes the song
    case QuitConfirm => Some(8)
    case _ => None                  // no parent to back up to
  }

  /** The menu after RED has led back to the parent screen. */
  function Parental(cfg: Config, s: Sim): Sim
    requires Parent(s.screen).Some?
  {
    Enter(cfg, s, Parent(s.screen).value, s.chosen)
  }

  lemma NoStep(q: Request, screen: NavGraph.Screen)
    requires forall i: nat | i <= 8 :: screen != Screen(i)
    ensures StepFor(PlanOf(q).steps, screen, 0) == None
  {
    var steps := PlanOf(q).steps;
    forall j: nat | j < |steps|
      ensures steps[j].expectedFrom != screen
    {
      assert steps[j].expectedFrom == Screen(j);
    }
    FindNothing(steps, screen, 0);
  }

  lemma {:induction false} FindNothing(steps: seq<Step>, screen: NavGraph.Screen, from: nat)
    requires forall j: nat | j < |steps| :: steps[j].expectedFrom != screen
    ensures StepFor(steps, screen, from) == None
    decreases |steps| - from
  {
    if from < |steps| { FindNothing(steps, screen, from + 1); }
  }

  /** What the plan for `q` prescribes on each screen. */
  ghost predicate Prescribes(plan: Plan, q: Request)
  {
    && plan.goal == InSong
    && (forall i: nat | i <= 7 :: StepFor(plan.steps, Screen(i), 0).Some? && StepFor(plan.steps, Screen(i), 0).value.action == ActionOn(q, i))
    && (forall w | OffPlan(w) :: StepFor(plan.steps, w, 0) == None)
  }

  predicate OffPlan(w: NavGraph.Screen) { w in [TutorialsMenu, PauseMenu, QuitConfirm] || Landing(w) == None }

  lemma PlanPrescribes(q: Request)
    ensures Prescribes(PlanOf(q), q)
  {
    forall i: nat | i <= 7
      ensures StepFor(PlanOf(q).steps, Screen(i), 0).Some? && StepFor(PlanOf(q).steps, Screen(i), 0).value.action == ActionOn(q, i)
    {
      ActionPlanned(q, i);
    }
    forall w | OffPlan(w)
      ensures StepFor(PlanOf(q).steps, w, 0) == None
    {
      NoStep(q, w);
    }
  }

  lemma LoadingEnds(cfg: Config, q: Request, plan: Plan, s: Sim, recover: nat, n: nat)
    requires Prescribes(plan, q) && At(cfg, s, Loading) && n >= 2
    ensures EndsWith(RunPlan(cfg, s, plan, recover, n), s.chosen)
  {
    assert Screen(7) == Loading;
    var o := Observe(cfg, s);
    assert o.screen == Loading && o.loading == 1;
    var e := Observe(cfg, o);
    assert e.screen == InSong;
    assert Execute(cfg, o, WaitFor(InSong)) == Ok(e);
    assert RunPlan(cfg, s, plan, recover, n) == RunPlan(cfg, e, plan, 0, n - 1);
  }

  lemma SongEnds(cfg: Config, q: Request, plan: Plan, s: Sim, recover: nat, n: nat)
    requires Prescribes(plan, q) && s.screen == InSong && n >= 1
    ensures EndsWith(RunPlan(cfg, s, plan, recover, n), s.chosen)
  {
  }

  /** On a screen with neither a step nor a parent the controller gives up. */
  lemma {:induction false} Stuck(cfg: Config, q: Request, plan: Plan, s: Sim, recover: nat, n: nat)
    requires Prescribes(plan, q) && Landing(s.screen) == None && n >= MAX_RECOVER + 1 - recover && recover <= MAX_RECOVER
    ensures RunPlan(cfg, s, plan, recover, n) == Err(CannotRecover)
    decreases MAX_RECOVER - recover
  {
    assert OffPlan(s.screen);
    assert Parent(s.screen) == None;
    if recover < MAX_RECOVER { Stuck(cfg, q, plan, s, recover + 1, n - 1); }
  }

  /** It does so after twelve attempts to back up, unless the iterations run out first. */
  lemma {:induction false} StuckExactly(cfg: Config, q: Request, plan: Plan, s: Sim, recover: nat, n: nat)
    requires Prescribes(plan, q) && Landing(s.screen) == None && recover <= 12
    ensures RunPlan(cfg, s, plan, recover, n) == Err(if n >= 13 - recover then CannotRecover else BudgetExhausted)
    decreases n
  {
    assert OffPlan(s.screen);
    assert Parent(s.screen) == None;
    if n > 0 && recover < 12 { StuckExactly(cfg, q, plan, s, recover + 1, n - 1); }
  }

  // ----- the controller's loop, by what it does on each kind of screen -----

  /** The outcome of a loop from a menu, a recovery count and a number of iterations left. */
  type Loop = (Sim, nat, nat) -> Result<Sim, NavError>

  ghost predicate Advances(cfg: Config, q: Request, run: Loop)
  {
    forall s: Sim, i: nat, recover: nat, n: nat {:trigger run(s, recover, n), Dealt(cfg, q, s, i)}
      | i <= 6 && At(cfg, s, Screen(i)) && n >= 1 ::
      run(s, recover, n) == run(Dealt(cfg, q, s, i), 0, n - 1)
  }

  ghost predicate Arrives(cfg: Config, run: Loop)
  {
    forall s: Sim, recover: nat, n: nat | n >= 2 && (At(cfg, s, Loading) || s.screen == InSong) ::
      EndsWith(run(s, recover, n), s.chosen)
  }

  ghost predicate BacksUp(cfg: Config, run: Loop)
  {
    forall s: Sim, recover: nat, n: nat {:trigger run(s, recover, n), Parental(cfg, s)}
      | s.screen in [TutorialsMenu, PauseMenu, QuitConfirm] && recover < MAX_RECOVER && n >= 1 ::
      run(s, recover, n) == run(Parental(cfg, s), recover + 1, n - 1)
  }

  ghost predicate GivesUp(run: Loop)
  {
    forall s: Sim, n: nat | Landing(s.screen) == None && n > MAX_RECOVER ::
      run(s, 0, n) == Err(CannotRecover)
  }

  ghost predicate Obeys(cfg: Config, q: Request, run: Loop)
  {
    Advances(cfg, q, run) && Arrives(cfg, run) && BacksUp(cfg, run) && GivesUp(run)
  }

  /** The loop of the controller on a plan. */
  function PlanLoop(cfg: Config, plan: Plan): Loop
  {
    (s: Sim, recover: nat, n: nat) => RunPlan(cfg, s, plan, recover, n)
  }

  /** The step of `s`'s screen leads to `s'`. */
  ghost predicate Leads(cfg: Config, plan: Plan, s: Sim, s': Sim)
  {
    && s.screen != plan.goal && s.screen != Loading
    && StepFor(plan.steps, s.screen, 0).Some?
    && Execute(cfg, s, StepFor(plan.steps, s.screen, 0).value.action) == Ok(s')
  }

  lemma LoopLeads(cfg: Config, plan: Plan, s: Sim, s': Sim, recover: nat, n: nat)
    requires Leads(cfg, plan, s, s') && n >= 1
    ensures PlanLoop(cfg, plan)(s, recover, n) == PlanLoop(cfg, plan)(s', 0, n - 1)
  {
  }

  /** `s` is on a screen without a step, and RED leads to `s'`. */
  ghost predicate Backs(cfg: Config, plan: Plan, s: Sim, s': Sim)
  {
    && s.screen != plan.goal && s.screen != Loading
    && StepFor(plan.steps, s.screen, 0) == None
    && Apply(cfg, s, RedBtn) == s'
  }

  lemma LoopBacks(cfg: Config, plan: Plan, s: Sim, s': Sim, recover: nat, n: nat)
    requires Backs(cfg, plan, s, s') && recover < MAX_RECOVER && n >= 1
    ensures PlanLoop(cfg, plan)(s, recover, n) == PlanLoop(cfg, plan)(s', recover + 1, n - 1)
  {
  }

  /** A loop that takes the steps of the plan and backs up where there is none. */
  ghost predicate Takes(cfg: Config, plan: Plan, run: Loop)
  {
    && (forall s: Sim, s': Sim, recover: nat, n: nat {:trigger run(s, recover, n), Leads(cfg, plan, s, s')}
          | Leads(cfg, plan, s, s') && n >= 1 :: run(s, recover, n) == run(s', 0, n - 1))
    && (forall s: Sim, s': Sim, recover: nat, n: nat {:trigger run(s, recover, n), Backs(cfg, plan, s, s')}
          | Backs(cfg, plan, s, s') && recover < MAX_RECOVER && n >= 1 :: run(s, recover, n) == run(s', recover + 1, n - 1))
  }

  lemma PlanLoopTakes(cfg: Config, plan: Plan)
    ensures Takes(cfg, plan, PlanLoop(cfg, plan))
  {
    var run := PlanLoop(cfg, plan);
    forall s: Sim, s': Sim, recover: nat, n: nat | Leads(cfg, plan, s, s') && n >= 1
      ensures run(s, recover, n) == run(s', 0, n - 1)
    {
      LoopLeads(cfg, plan, s, s', recover, n);
    }
    forall s: Sim, s': Sim, recover: nat, n: nat | Backs(cfg, plan, s, s') && recover < MAX_RECOVER && n >= 1
      ensures run(s, recover, n) == run(s', recover + 1, n - 1)
    {
      LoopBacks(cfg, plan, s, s', recover, n);
    }
  }

  lemma DealsLeads(cfg: Config, q: Request, plan: Plan, s: Sim, i: nat)
    requires Prescribes(plan, q) && ListsOk(cfg) && RequestOk(q) && i <= 6 && At(cfg, s, Screen(i))
    ensures Leads(cfg, plan, s, Dealt(cfg, q, s, i))
  {
    DealsWith(cfg, q, s, i);
  }

  lemma RedBacks(cfg: Config, q: Request, plan: Plan, s: Sim)
    requires Prescribes(plan, q) && s.screen in [TutorialsMenu, PauseMenu, QuitConfirm]
    ensures Backs(cfg, plan, s, Parental(cfg, s))
  {
    assert OffPlan(s.screen);
  }

  lemma TakingAdvances(cfg: Config, q: Request, plan: Plan, run: Loop)
    requires Prescribes(plan, q) && ListsOk(cfg) && RequestOk(q) && Takes(cfg, plan, run)
    ensures Advances(cfg, q, run)
  {
    forall s: Sim, i: nat, recover: nat, n: nat | i <= 6 && At(cfg, s, Screen(i)) && n >= 1
      ensures run(s, recover, n) == run(Dealt(cfg, q, s, i), 0, n - 1)
    {
      DealsLeads(cfg, q, plan, s, i);
    }
  }

  lemma TakingBacksUp(cfg: Config, q: Request, plan: Plan, run: Loop)
    requires Prescribes(plan, q) && Takes(cfg, plan, run)
    ensures BacksUp(cfg, run)
  {
    forall s: Sim, recover: nat, n: nat
      | s.screen in [TutorialsMenu, PauseMenu, QuitConfirm] && recover < MAX_RECOVER && n >= 1
      ensures run(s, recover, n) == run(Parental(cfg, s), recover + 1, n - 1)
    {
      RedBacks(cfg, q, plan, s);
    }
  }

  lemma PlanLoopArrives(cfg: Config, q: Request, plan: Plan)
    requires Prescribes(plan, q)
    ensures Arrives(cfg, PlanLoop(cfg, plan))
  {
    forall s: Sim, recover: nat, n: nat | n >= 2 && (At(cfg, s, Loading) || s.screen == InSong)
      ensures EndsWith(PlanLoop(cfg, plan)(s, recover, n), s.chosen)
    {
      if s.screen == Loading { LoadingEnds(cfg, q, plan, s, recover, n); } else { SongEnds(cfg, q, plan, s, recover, n); }
    }
  }

  lemma PlanLoopGivesUp(cfg: Config, q: Request, plan: Plan)
    requires Prescribes(plan, q)
    ensures GivesUp(PlanLoop(cfg, plan))
  {
    forall s: Sim, n: nat | Landing(s.screen) == None && n > MAX_RECOVER
      ensures PlanLoop(cfg, plan)(s, 0, n) == Err(CannotRecover)
    {
      Stuck(cfg, q, plan, s, 0, n);
    }
  }

  lemma PlanLoopObeys(cfg: Config, q: Request, plan: Plan)
    requires Prescribes(plan, q) && ListsOk(cfg) && RequestOk(q)
    ensures Obeys(cfg, q, PlanLoop(cfg, plan))
  {
    PlanLoopTakes(cfg, plan);
    TakingAdvances(cfg, q, plan, PlanLoop(cfg, plan));
    PlanLoopArrives(cfg, q, plan);
    TakingBacksUp(cfg, q, plan, PlanLoop(cfg, plan));
    PlanLoopGivesUp(cfg, q, plan);
  }

  // ----- a run without (further) misfire -----

  /** The choices once the run from screen `i` is through. */
  function Final(cfg: Config, q: Request, i: nat, c: Chosen): Chosen
    decreases 8 - i
  {
    if i >= 7 then c else Final(cfg, q, After(cfg, i), Choose(cfg, q, i, c))
  }

  /** A run from screen `i` passes screen `j`. */
  predicate Visits(cfg: Config, i: nat, j: nat) { i <= j <= 6 && (j == 3 ==> i == 3 || cfg.partPresent) }

  ghost predicate Clean(cfg: Config, s: Sim, i: nat)
  {
    forall j: nat | Visits(cfg, i, j) :: !Misfires(cfg, s, j)
  }

  lemma StaysClean(cfg: Config, q: Request, s: Sim, i: nat)
    requires i <= 6 && At(cfg, s, Screen(i)) && Clean(cfg, s, i)
    ensures var s' := Dealt(cfg, q, s, i);
            Clean(cfg, s', After(cfg, i)) && At(cfg, s', Screen(After(cfg, i))) && s'.chosen == Choose(cfg, q, i, s.chosen)
  {
    assert Visits(cfg, i, i) || i == 3;
    var s' := Dealt(cfg, q, s, i);
    forall j: nat | Visits(cfg, After(cfg, i), j)
      ensures !Misfires(cfg, s', j)
    {
      assert Visits(cfg, i, j) && !Misfires(cfg, s, j);
    }
  }

  lemma {:induction false} CleanRun(cfg: Config, q: Request, run: Loop, s: Sim, i: nat, recover: nat, n: nat)
    requires Obeys(cfg, q, run) && i <= 8 && At(cfg, s, Screen(i)) && Clean(cfg, s, i) && n >= 10 - i
    ensures EndsWith(run(s, recover, n), Final(cfg, q, i, s.chosen))
    decreases 8 - i
  {
    if i <= 6 {
      StaysClean(cfg, q, s, i);
      CleanRun(cfg, q, run, Dealt(cfg, q, s, i), After(cfg, i), 0, n - 1);
    }
  }

  // ----- a run with one misfire -----

  lemma FromTutorials(cfg: Config, q: Request, run: Loop, s: Sim, i: nat, recover: nat, n: nat)
    requires Obeys(cfg, q, run) && At(cfg, s, TutorialsMenu) && s.misfired && n >= 20
    requires i <= 8 && Screen(i) == TrainingMenu && recover < MAX_RECOVER
    ensures EndsWith(run(s, recover, n), Final(cfg, q, i, s.chosen))
  {
    CleanRun(cfg, q, run, Parental(cfg, s), i, recover + 1, n - 1);
  }

  lemma FromPause(cfg: Config, q: Request, run: Loop, s: Sim, recover: nat, n: nat)
    requires Obeys(cfg, q, run) && At(cfg, s, PauseMenu) && recover < MAX_RECOVER && n >= 3
    ensures EndsWith(run(s, recover, n), Final(cfg, q, 8, s.chosen))
  {
    var s' := Parental(cfg, s);
    assert run(s, recover, n) == run(s', recover + 1, n - 1) && s'.screen == InSong;
  }

  lemma FromQuitConfirm(cfg: Config, q: Request, run: Loop, s: Sim, recover: nat, n: nat)
    requires Obeys(cfg, q, run) && At(cfg, s, QuitConfirm) && recover + 1 < MAX_RECOVER && n >= 4
    ensures EndsWith(run(s, recover, n), Final(cfg, q, 8, s.chosen))
  {
    FromPause(cfg, q, run, Parental(cfg, s), recover + 1, n - 1);
  }

  /** A run thrown onto `w` with choices `c` made: it goes on from the landing, or gives up
    * on a screen without parent. */
  ghost predicate Resumes(cfg: Config, q: Request, r: Result<Sim, NavError>, w: NavGraph.Screen, c: Chosen)
  {
    if Landing(w).Some? then EndsWith(r, Final(cfg, q, Landing(w).value, c)) else r == Err(CannotRecover)
  }

  /** How a run ends that has just been thrown onto screen `w`, its one misfire spent. */
  lemma AfterLanding(cfg: Config, q: Request, run: Loop, s: Sim, w: NavGraph.Screen, n: nat)
    requires Obeys(cfg, q, run) && At(cfg, s, w) && s.misfired && n >= 20
    ensures Resumes(cfg, q, run(s, 0, n), w, s.chosen)
  {
    if w == TutorialsMenu {
      FromTutorials(cfg, q, run, s, Landing(w).value, 0, n);
    } else if w == PauseMenu {
      FromPause(cfg, q, run, s, 0, n);
    } else if w == QuitConfirm {
      FromQuitConfirm(cfg, q, run, s, 0, n);
    } else if Landing(w).Some? {
      OntoPlan(cfg, q, run, s, Landing(w).value, n);
    }
  }

  lemma OntoPlan(cfg: Config, q: Request, run: Loop, s: Sim, i: nat, n: nat)
    requires Obeys(cfg, q, run) && i <= 8 && At(cfg, s, Screen(i)) && s.misfired && n >= 20
    ensures EndsWith(run(s, 0, n), Final(cfg, q, i, s.chosen))
  {
    CleanRun(cfg, q, run, s, i, 0, n);
  }

  /** The choices made by a run from the start before it reaches screen `k`. */
  function Upto(cfg: Config, q: Request, k: nat): Chosen
  {
    if k == 0 then NOTHING
    else if k == 4 && !cfg.partPresent then Upto(cfg, q, 3)
    else Choose(cfg, q, k - 1, Upto(cfg, q, k - 1))
  }

  lemma ScreensDiffer(i: nat, k: nat)
    requires i < k <= 8
    ensures Screen(i) != Screen(k)
  {
  }

  lemma UptoNext(cfg: Config, q: Request, i: nat)
    requires i <= 6 && (i == 3 ==> cfg.partPresent)
    ensures Upto(cfg, q, After(cfg, i)) == Choose(cfg, q, i, Upto(cfg, q, i))
  {
  }

  /** Screens before the misfire's are dealt with as in a clean run. */
  lemma NotYet(cfg: Config, q: Request, s: Sim, i: nat, k: nat)
    requires i < k <= 6 && (i == 3 ==> cfg.partPresent) && At(cfg, s, Screen(i)) && s.chosen == Upto(cfg, q, i) && !s.misfired
    requires cfg.misfire.Some? && cfg.misfire.value.0 == Screen(k)
    ensures var s' := Dealt(cfg, q, s, i);
            At(cfg, s', Screen(After(cfg, i))) && s'.chosen == Upto(cfg, q, After(cfg, i)) && !s'.misfired
  {
    ScreensDiffer(i, k);
    UptoNext(cfg, q, i);
  }

  lemma Thrown(cfg: Config, q: Request, s: Sim, i: nat)
    requires i <= 6 && At(cfg, s, Screen(i)) && !s.misfired
    requires cfg.misfire.Some? && cfg.misfire.value.0 == Screen(i)
    ensures var s' := Dealt(cfg, q, s, i); At(cfg, s', cfg.misfire.value.1) && s'.chosen == s.chosen && s'.misfired
  {
  }

  /** The run up to the misfire of screen `k`: it is thrown onto the misfire's target with the
    * choices of the screens before `k` made and at least 20 iterations left. */
  lemma {:induction false} MeetsMisfire(cfg: Config, q: Request, run: Loop, s: Sim, i: nat, k: nat, n: nat) returns (s': Sim, n': nat)
    requires Obeys(cfg, q, run) && Visits(cfg, i, k) && (i == 3 ==> cfg.partPresent) && n >= 28 - i
    requires At(cfg, s, Screen(i)) && s.chosen == Upto(cfg, q, i) && !s.misfired
    requires cfg.misfire.Some? && cfg.misfire.value.0 == Screen(k)
    ensures run(s, 0, n) == run(s', 0, n') && n' >= 20
    ensures At(cfg, s', cfg.misfire.value.1) && s'.chosen == Upto(cfg, q, k) && s'.misfired
    decreases k - i
  {
    s', n' := Dealt(cfg, q, s, i), n - 1;
    if i == k {
      Thrown(cfg, q, s, i);
    } else {
      NotYet(cfg, q, s, i, k);
      s', n' := MeetsMisfire(cfg, q, run, s', After(cfg, i), k, n');
    }
  }

  lemma MisfireRun(cfg: Config, q: Request, run: Loop, s: Sim, i: nat, k: nat, n: nat)
    requires Obeys(cfg, q, run) && Visits(cfg, i, k) && (i == 3 ==> cfg.partPresent) && n >= 28 - i
    requires At(cfg, s, Screen(i)) && s.chosen == Upto(cfg, q, i) && !s.misfired
    requires cfg.misfire.Some? && cfg.misfire.value.0 == Screen(k)
    ensures Resumes(cfg, q, run(s, 0, n), cfg.misfire.value.1, Upto(cfg, q, k))
  {
    var s', n' := MeetsMisfire(cfg, q, run, s, i, k, n);
    AfterLanding(cfg, q, run, s', cfg.misfire.value.1, n');
  }

  // ----- the whole run -----

  /** The run from the main menu with an iteration budget (`MAX_ITERS`, 60, in the source). */
  function Outcome(cfg: Config, q: Request, budget: nat): Result<Sim, NavError>
  {
    RunPlan(cfg, Initial(cfg, MainMenu), PlanOf(q), 0, budget)
  }

  const ENOUGH: nat := 28

  /** The plan position of the misfire, if the run ever meets it. */
  function MisfireAt(cfg: Config): Option<nat>
  {
    if cfg.misfire == None then None else
    match cfg.misfire.value.0
    case MainMenu => Some(0) case TrainingMenu => Some(1) case SongSelect => Some(2)
    case PartSelect => if cfg.partPresent then Some(3) else None
    case DifficultySelect => Some(4) case SectionSelect => Some(5) case SpeedSelect => Some(6)
    case _ => None
  }

  /** For every menu the run ends in the song with these choices, or gives up on a screen
    * without parent. */
  lemma PracticeRunOutcome(cfg: Config, q: Request, budget: nat)
    requires ListsOk(cfg) && RequestOk(q) && budget >= ENOUGH
    ensures match MisfireAt(cfg)
            case None => EndsWith(Outcome(cfg, q, budget), Final(cfg, q, 0, NOTHING))
            case Some(k) => Resumes(cfg, q, Outcome(cfg, q, budget), cfg.misfire.value.1, Upto(cfg, q, k))
  {
    var s, run := Initial(cfg, MainMenu), PlanLoop(cfg, PlanOf(q));
    PlanPrescribes(q);
    PlanLoopObeys(cfg, q, PlanOf(q));
    match MisfireAt(cfg) {
      case None => CleanRun(cfg, q, run, s, 0, 0, budget);
      case Some(k) => MisfireRun(cfg, q, run, s, 0, k, budget);
    }
  }

  // ----- what that means for the request -----

  predicate AsRequested(q: Request, c: Chosen)
  {
    c.song == Some(q.song) && c.difficulty == Some(DifficultyIndex(q.difficulty)) &&
    c.section == Some(0) && c.speed == Some(0)
  }

  /** The song exists and no cursor has more than 64 rows to travel. */
  predicate InReach(cfg: Config, q: Request)
  {
    && 0 <= q.song < cfg.songCount
    && q.song - Entry(cfg, SongSelect) <= MAX_MOVE && Entry(cfg, SongSelect) - q.song <= MAX_MOVE
    && Entry(cfg, SectionSelect) <= MAX_MOVE
  }

  /** The misfire skips none of the screens that choose song, difficulty, section or speed. */
  predicate Harmless(cfg: Config)
  {
    MisfireAt(cfg).Some? ==>
      var k, landing := MisfireAt(cfg).value, Landing(cfg.misfire.value.1);
      landing.Some? && forall c: nat | c in [2, 4, 5, 6] :: !(k <= c < landing.value)
  }

  /** `Final` overwrites exactly the choices of the screens from `w` on. */
  lemma {:induction false} FinalFields(cfg: Config, q: Request, w: nat, c: Chosen)
    requires w <= 8
    ensures var f := Final(cfg, q, w, c);
            f.song == (if w <= 2 then Choose(cfg, q, 2, NOTHING).song else c.song) &&
            f.difficulty == (if w <= 4 then Choose(cfg, q, 4, NOTHING).difficulty else c.difficulty) &&
            f.section == (if w <= 5 then Choose(cfg, q, 5, NOTHING).section else c.section) &&
            f.speed == (if w <= 6 then Choose(cfg, q, 6, NOTHING).speed else c.speed)
    decreases 8 - w
  {
    if w <= 6 { FinalFields(cfg, q, After(cfg, w), Choose(cfg, q, w, c)); }
  }

  lemma {:induction false} UptoFields(cfg: Config, q: Request, k: nat)
    requires k <= 7
    ensures var u := Upto(cfg, q, k);
            u.song == (if k > 2 then Choose(cfg, q, 2, NOTHING).song else None) &&
            u.difficulty == (if k > 4 then Choose(cfg, q, 4, NOTHING).difficulty else None) &&
            u.section == (if k > 5 then Choose(cfg, q, 5, NOTHING).section else None) &&
            u.speed == (if k > 6 then Choose(cfg, q, 6, NOTHING).speed else None)
  {
    if k > 0 {
      UptoFields(cfg, q, k - 1);
      if k == 4 { UptoFields(cfg, q, 3); }
    }
  }

  lemma CleanChoices(cfg: Config, q: Request)
    requires ListsOk(cfg)
    ensures AsRequested(q, Final(cfg, q, 0, NOTHING)) <==> InReach(cfg, q)
  {
    FinalFields(cfg, q, 0, NOTHING);
    EntryInList(cfg, SongSelect);
    ReachedExactly(Entry(cfg, SongSelect), q.song, cfg.songCount);
  }

  /** After a misfire from screen `k` that resumes at `w` a choice is missing exactly if its
    * screen was skipped. */
  lemma MisfireChoices(cfg: Config, q: Request, k: nat, w: nat)
    requires ListsOk(cfg) && k <= 6 && w <= 8
    ensures AsRequested(q, Final(cfg, q, w, Upto(cfg, q, k))) <==>
              InReach(cfg, q) && !(k <= 2 < w) && !(k <= 4 < w) && !(k <= 5 < w) && !(k <= 6 < w)
  {
    UptoFields(cfg, q, k);
    FinalFields(cfg, q, w, Upto(cfg, q, k));
    FinalFields(cfg, q, 0, NOTHING);
    CleanChoices(cfg, q);
  }

  lemma HarmlessSpelled(k: nat, w: nat)
    ensures (forall c: nat | c in [2, 4, 5, 6] :: !(k <= c < w)) <==>
              !(k <= 2 < w) && !(k <= 4 < w) && !(k <= 5 < w) && !(k <= 6 < w)
  {
    assert 2 in [2, 4, 5, 6] && 4 in [2, 4, 5, 6] && 5 in [2, 4, 5, 6] && 6 in [2, 4, 5, 6];
  }

  lemma CleanAsRequested(cfg: Config, q: Request, budget: nat)
    requires ListsOk(cfg) && RequestOk(q) && budget >= ENOUGH && MisfireAt(cfg) == None
    ensures Outcome(cfg, q, budget).Ok? && AsRequested(q, Outcome(cfg, q, budget).value.chosen) <==> InReach(cfg, q)
  {
    PracticeRunOutcome(cfg, q, budget);
    CleanChoices(cfg, q);
  }

  lemma HarmlessWhen(cfg: Config, k: nat, w: nat)
    requires MisfireAt(cfg) == Some(k) && Landing(cfg.misfire.value.1) == Some(w)
    ensures Harmless(cfg) <==> !(k <= 2 < w) && !(k <= 4 < w) && !(k <= 5 < w) && !(k <= 6 < w)
  {
    HarmlessSpelled(k, w);
  }

  lemma MisfireAtPlan(cfg: Config)
    ensures MisfireAt(cfg).Some? ==> MisfireAt(cfg).value <= 6
  {
  }

  lemma LandingAtPlan(w: NavGraph.Screen)
    ensures Landing(w).Some? ==> Landing(w).value <= 8
  {
  }

  lemma MisfiredAsRequested(cfg: Config, q: Request, budget: nat, k: nat)
    requires ListsOk(cfg) && RequestOk(q) && budget >= ENOUGH && MisfireAt(cfg) == Some(k)
    ensures Outcome(cfg, q, budget).Ok? && AsRequested(q, Outcome(cfg, q, budget).value.chosen) <==> InReach(cfg, q) && Harmless(cfg)
  {
    PracticeRunOutcome(cfg, q, budget);
    if Landing(cfg.misfire.value.1).Some? {
      var w := Landing(cfg.misfire.value.1).value;
      MisfireAtPlan(cfg);
      LandingAtPlan(cfg.misfire.value.1);
      MisfireChoices(cfg, q, k, w);
      HarmlessWhen(cfg, k, w);
    }
  }

  /** The controller ends in the song having chosen exactly the requested song and
    * difficulty, the top section and the top speed, if and only if the song exists, every
    * cursor is within 64 rows, and the misfire (if met) skips no choice. */
  lemma ChoosesAsRequested(cfg: Config, q: Request, budget: nat)
    requires ListsOk(cfg) && RequestOk(q) && budget >= ENOUGH
    ensures Outcome(cfg, q, budget).Ok? && AsRequested(q, Outcome(cfg, q, budget).value.chosen) <==> InReach(cfg, q) && Harmless(cfg)
  {
    match MisfireAt(cfg) {
      case None => CleanAsRequested(cfg, q, budget);
      case Some(k) => MisfiredAsRequested(cfg, q, budget, k);
    }
  }

  /** In particular for every list of at most 65 rows, and a misfire that lands on an
    * earlier or equal plan screen. */
  lemma ShortListsAlwaysWork(cfg: Config, q: Request, budget: nat)
    requires ListsOk(cfg) && RequestOk(q) && budget >= ENOUGH && cfg.songCount <= 65 && cfg.sectionCount <= 65 && 0 <= q.song < cfg.songCount
    requires MisfireAt(cfg).Some? ==>
               Landing(cfg.misfire.value.1).Some? && Landing(cfg.misfire.value.1).value <= MisfireAt(cfg).value
    ensures Outcome(cfg, q, budget).Ok? && Outcome(cfg, q, budget).value.screen == InSong && AsRequested(q, Outcome(cfg, q, budget).value.chosen)
  {
    ChoosesAsRequested(cfg, q, budget);
    PracticeRunOutcome(cfg, q, budget);
  }

  /** The controller object run against a fresh game from the main menu. */
  method Drive(cfg: Config, q: Request) returns (r: Result<Sim, NavError>)
    requires ListsOk(cfg) && RequestOk(q)
    ensures r.Ok? && AsRequested(q, r.value.chosen) <==> InReach(cfg, q) && Harmless(cfg)
    ensures r.Ok? ==> r.value.screen == InSong
  {
    var game := new Game(MainMenu, cfg);
    var controller := new NavController(game);
    var plan := PlanPracticeRun(q.song, q.difficulty, q.part);
    ghost var budget := MAX_ITERS;
    r := controller.Run(plan.value);
    ChoosesAsRequested(cfg, q, budget);
    PracticeRunOutcome(cfg, q, budget);
  }

  // ----- what is refused -----

  /** A plan is made exactly for a listed difficulty and part. */
  lemma PlanRefuses(song: int, difficulty: Item, part: Item)
    ensures var r := PlanPracticeRun(song, difficulty, part);
      if (difficulty == Easy || difficulty == Medium || difficulty == Hard || difficulty == Expert) && (part == Lead || part == Rhythm)
      then r == Ok(PlanOf(Request(song, difficulty, part))) else r == Err(UnknownChoice)
  {
    DifficultyKnown(difficulty);
    PartKnown(part);
  }

  lemma DifficultyKnown(d: Item)
    ensures d in Layout(DifficultySelect).value <==> d == Easy || d == Medium || d == Hard || d == Expert
  {
    var items := Layout(DifficultySelect).value;
    assert items[0] == Easy && items[1] == Medium && items[2] == Hard && items[3] == Expert;
  }

  lemma PartKnown(part: Item)
    ensures part in Layout(PartSelect).value <==> part == Lead || part == Rhythm
  {
    var items := Layout(PartSelect).value;
    assert items[0] == Lead && items[1] == Rhythm;
  }

  lemma {:induction false} NotListed(items: seq<Item>, item: Item, from: nat)
    requires from <= |items|
    ensures IndexOf(items, item, from) < 0 <==> forall j | from <= j < |items| :: items[j] != item
    decreases |items| - from
  {
    if from < |items| { NotListed(items, item, from + 1); }
  }

  /** Selecting an item fails exactly where the screen does not list it, and a song choice without a song
    * always fails. */
  lemma SelectionRefuses(cfg: Config, s: Sim, item: Item)
    requires s.screen != Loading
    ensures Execute(cfg, s, SelectItem(item)).Err? <==>
              Layout(s.screen) == None || forall j | 0 <= j < |Layout(s.screen).value| :: Layout(s.screen).value[j] != item
    ensures Execute(cfg, s, SelectItem(item)).Err? ==> Execute(cfg, s, SelectItem(item)) == Err(UnknownItem)
    ensures Execute(cfg, s, Action.SelectSong) == Err(NotExecutable)
  {
    if Layout(s.screen).Some? { NotListed(Layout(s.screen).value, item, 0); }
  }

  /** Looking `n` times waits successfully exactly for the screen that stays or, from the loading screen,
    * for the song, or for loading itself unless it is over at the first look. */
  lemma {:induction false} WaitsExactly(cfg: Config, s: Sim, screen: NavGraph.Screen, n: nat)
    requires n > s.loading
    ensures var r := WaitUntil(cfg, s, screen, n);
      if (if s.screen != Loading then s.screen == screen else screen == InSong || (screen == Loading && s.loading >= 2))
      then r.Ok? && r.value.screen == screen else r == Err(WaitTimedOut)
    decreases n
  {
    var o := Observe(cfg, s);
    if o.screen != screen {
      if o.screen == Loading { WaitsExactly(cfg, o, screen, n - 1); } else { NeverComes(cfg, o, screen, n - 1); }
    }
  }

  lemma {:induction false} NeverComes(cfg: Config, s: Sim, screen: NavGraph.Screen, n: nat)
    requires s.screen != Loading && s.screen != screen
    ensures WaitUntil(cfg, s, screen, n) == Err(WaitTimedOut)
  {
    if n > 0 { NeverComes(cfg, s, screen, n - 1); }
  }
}
