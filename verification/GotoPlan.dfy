/** Going to any screen (navgraph.py, navigator.py): the game's own routing tables, that the simulated game
  * obeys them, and that the controller driven along a shortest route arrives. */
module GotoPlan {
  import opened Wrappers
  import opened NavGraph
  import opened SimGame
  import opened Navigator
  import opened PracticeRun

  // ----- the game's tables -----

  /** `FORWARD`. */
  function EdgesOf(screen: NavGraph.Screen): seq<Edge>
  {
    match screen
    case MainMenu => [Edge(TrainingMenu, SelectItem(Training))]
    case TrainingMenu => [Edge(SongSelect, SelectItem(Practice)), Edge(TutorialsMenu, SelectItem(Tutorials))]
    case SongSelect => [Edge(PartSelect, Action.SelectSong)]
    case PartSelect => [Edge(DifficultySelect, SelectItem(Lead))]
    case DifficultySelect => [Edge(SectionSelect, SelectItem(Easy))]
    case SectionSelect => [Edge(SpeedSelect, SaturateTop)]
    case SpeedSelect => [Edge(Loading, SaturateTop)]
    case Loading => [Edge(InSong, WaitFor(InSong))]
    case InSong => [Edge(PauseMenu, Press(PlusBtn))]
    case PauseMenu =>
      [Edge(InSong, SelectItem(Resume)), Edge(Loading, SelectItem(Restart)), Edge(SpeedSelect, SelectItem(ChangeSpeed)),
       Edge(SectionSelect, SelectItem(ChangeSection)), Edge(SongSelect, SelectItem(NewSong)), Edge(QuitConfirm, SelectItem(Quit))]
    case QuitConfirm => [Edge(PauseMenu, SelectItem(Cancel)), Edge(MainMenu, SelectItem(Quit))]
    case PracticeEndMenu =>
      [Edge(SongSelect, SelectItem(Continue)), Edge(Loading, SelectItem(Restart)), Edge(SpeedSelect, SelectItem(ChangeSpeed)),
       Edge(SectionSelect, SelectItem(ChangeSection)), Edge(MainMenu, SelectItem(Quit))]
    case _ => []
  }

  const NAMED: set<NavGraph.Screen> :=
    {MainMenu, TrainingMenu, TutorialsMenu, SongSelect, PartSelect, DifficultySelect, SectionSelect, SpeedSelect, Loading,
     InSong, PauseMenu, QuitConfirm, PracticeEndMenu}

  /** `FORWARD` and `PARENT` as the search takes them. */
  function GameGraph(): Graph
  {
    Graph(map s | s in NAMED && EdgesOf(s) != [] :: EdgesOf(s), map s | s in NAMED && Parent(s).Some? :: Parent(s).value)
  }

  lemma GameEdges(st: GraphStep)
    ensures IsForward(GameGraph(), st) <==> st.action != Action.SelectSong && Edge(st.to, st.action) in EdgesOf(st.frm)
    ensures IsBack(GameGraph(), st) <==> st.action == Press(RedBtn) && Parent(st.frm) == Some(st.to)
  {
    NamedOrNot(st.frm);
  }

  lemma NamedOrNot(s: NavGraph.Screen)
    ensures s !in NAMED ==> EdgesOf(s) == [] && Parent(s) == None
  {
  }

  // ----- the simulated game obeys them -----

  /** A menu between actions: the cursor inside its list, and the loading screen just entered. */
  ghost predicate Settled(cfg: Config, s: Sim)
  {
    InList(cfg, s) && (s.screen == Loading ==> s.loading == LOADING_TICKS)
  }

  lemma SizesPositive(cfg: Config, screen: NavGraph.Screen)
    requires ListsOk(cfg)
    ensures Size(cfg, screen) >= 1
  {
  }

  lemma EnterSettles(cfg: Config, s: Sim, screen: NavGraph.Screen, chosen: Chosen)
    requires ListsOk(cfg)
    ensures Settled(cfg, Enter(cfg, s, screen, chosen))
  {
    SizesPositive(cfg, screen);
    EntryInList(cfg, screen);
  }

  /** The action took the menu to `to`. */
  ghost predicate Leads(cfg: Config, r: Result<Sim, NavError>, to: NavGraph.Screen)
  {
    r.Ok? && r.value.screen == to && Settled(cfg, r.value)
  }

  lemma GreenLeads(cfg: Config, s: Sim, to: NavGraph.Screen)
    requires ListsOk(cfg) && cfg.misfire == None
    requires GreenTarget(cfg, s).Some? && GreenTarget(cfg, s).value.0 == to
    ensures Leads(cfg, Ok(Green(cfg, s)), to)
  {
    EnterSettles(cfg, s, to, GreenTarget(cfg, s).value.1);
  }

  lemma ItemLeads(cfg: Config, s: Sim, item: Item, index: int, to: NavGraph.Screen)
    requires ListsOk(cfg) && cfg.misfire == None && Settled(cfg, s) && s.screen != Loading && Layout(s.screen).Some?
    requires IndexOf(Layout(s.screen).value, item, 0) == index && 0 <= index < Size(cfg, s.screen) <= 8
    requires GreenTarget(cfg, s.(selection := index)).Some? && GreenTarget(cfg, s.(selection := index)).value.0 == to
    ensures Leads(cfg, Execute(cfg, s, SelectItem(item)), to)
  {
    SelectItemMoves(cfg, s, item, index);
    GreenLeads(cfg, s.(selection := index), to);
  }

  /** A menu as the controller observes it between actions. */
  ghost predicate Standing(cfg: Config, s: Sim)
  {
    InList(cfg, s) && (s.screen == Loading ==> s.loading == 1)
  }

  lemma {:induction false} IndexIs(items: seq<Item>, item: Item, k: nat, from: nat)
    requires from <= k < |items| && items[k] == item && forall j | from <= j < k :: items[j] != item
    ensures IndexOf(items, item, from) == k
    decreases k - from
  {
    if from < k { IndexIs(items, item, k, from + 1); }
  }

  /** Selecting item `k` of a screen's list. */
  lemma ItemAt(cfg: Config, s: Sim, item: Item, k: nat, to: NavGraph.Screen)
    requires ListsOk(cfg) && cfg.misfire == None && Standing(cfg, s) && Layout(s.screen).Some?
    requires k < |Layout(s.screen).value| <= 8 && Layout(s.screen).value[k] == item
    requires forall j | 0 <= j < k :: Layout(s.screen).value[j] != item
    requires s.screen != SongSelect && s.screen != SectionSelect && s.screen != Loading
    requires GreenTarget(cfg, s.(selection := k)).Some? && GreenTarget(cfg, s.(selection := k)).value.0 == to
    ensures Leads(cfg, Execute(cfg, s, SelectItem(item)), to)
  {
    IndexIs(Layout(s.screen).value, item, k, 0);
    ItemLeads(cfg, s, item, k, to);
  }

  lemma TopLeads(cfg: Config, s: Sim)
    requires ListsOk(cfg) && cfg.misfire == None && Standing(cfg, s)
    requires s.screen == SectionSelect || s.screen == SpeedSelect
    ensures Leads(cfg, Execute(cfg, s, SaturateTop), if s.screen == SectionSelect then SpeedSelect else Loading)
  {
    var top := s.(selection := if s.selection > MAX_MOVE then s.selection - MAX_MOVE else 0);
    Climb(cfg, s, None, MAX_MOVE);
    GreenLeads(cfg, top, if s.screen == SectionSelect then SpeedSelect else Loading);
  }

  lemma WaitLeads(cfg: Config, s: Sim)
    requires ListsOk(cfg) && Standing(cfg, s) && s.screen == Loading
    ensures Leads(cfg, Execute(cfg, s, WaitFor(InSong)), InSong)
  {
    EnterSettles(cfg, s.(loading := 0), InSong, s.chosen);
    assert Observe(cfg, s).screen == InSong;
  }

  lemma MenuEdge(cfg: Config, s: Sim, e: Edge)
    requires ListsOk(cfg) && cfg.misfire == None && Standing(cfg, s) && e in EdgesOf(s.screen)
    requires s.screen in [MainMenu, TrainingMenu, PartSelect, DifficultySelect, QuitConfirm]
    ensures Leads(cfg, Execute(cfg, s, e.action), e.to)
  {
    match s.screen
    case MainMenu => ItemAt(cfg, s, Training, 4, TrainingMenu);
    case TrainingMenu => if e.to == SongSelect { ItemAt(cfg, s, Practice, 1, SongSelect); } else { ItemAt(cfg, s, Tutorials, 0, TutorialsMenu); }
    case PartSelect => ItemAt(cfg, s, Lead, 0, DifficultySelect);
    case DifficultySelect => ItemAt(cfg, s, Easy, 0, SectionSelect);
    case QuitConfirm => if e.to == PauseMenu { ItemAt(cfg, s, Cancel, 0, PauseMenu); } else { ItemAt(cfg, s, Quit, 1, MainMenu); }
    case _ =>
  }

  lemma PauseEdge(cfg: Config, s: Sim, e: Edge)
    requires ListsOk(cfg) && cfg.misfire == None && Standing(cfg, s) && e in EdgesOf(s.screen) && s.screen == PauseMenu
    ensures Leads(cfg, Execute(cfg, s, e.action), e.to)
  {
    match e.to
    case InSong => ItemAt(cfg, s, Resume, 0, InSong);
    case Loading => ItemAt(cfg, s, Restart, 1, Loading);
    case SpeedSelect => ItemAt(cfg, s, ChangeSpeed, 3, SpeedSelect);
    case SectionSelect => ItemAt(cfg, s, ChangeSection, 4, SectionSelect);
    case SongSelect => ItemAt(cfg, s, NewSong, 5, SongSelect);
    case QuitConfirm => ItemAt(cfg, s, Quit, 6, QuitConfirm);
    case _ =>
  }

  lemma EndEdge(cfg: Config, s: Sim, e: Edge)
    requires ListsOk(cfg) && cfg.misfire == None && Standing(cfg, s) && e in EdgesOf(s.screen) && s.screen == PracticeEndMenu
    ensures Leads(cfg, Execute(cfg, s, e.action), e.to)
  {
    match e.to
    case SongSelect => ItemAt(cfg, s, Continue, 0, SongSelect);
    case Loading => ItemAt(cfg, s, Restart, 1, Loading);
    case SpeedSelect => ItemAt(cfg, s, ChangeSpeed, 2, SpeedSelect);
    case SectionSelect => ItemAt(cfg, s, ChangeSection, 3, SectionSelect);
    case MainMenu => ItemAt(cfg, s, Quit, 4, MainMenu);
    case _ =>
  }

  lemma ForwardHolds(cfg: Config, s: Sim, e: Edge)
    requires ListsOk(cfg) && cfg.misfire == None && Standing(cfg, s) && e in EdgesOf(s.screen) && e.action != Action.SelectSong
    ensures Leads(cfg, Execute(cfg, s, e.action), e.to)
  {
    match s.screen
    case PauseMenu => PauseEdge(cfg, s, e);
    case PracticeEndMenu => EndEdge(cfg, s, e);
    case SectionSelect => TopLeads(cfg, s);
    case SpeedSelect => TopLeads(cfg, s);
    case Loading => WaitLeads(cfg, s);
    case InSong => EnterSettles(cfg, s, PauseMenu, s.chosen);
    case SongSelect =>
    case _ => MenuEdge(cfg, s, e);
  }

  /** Every edge of the tables is true of the simulated game: its action leads where it says, whatever the
    * cursor and the list lengths. */
  lemma EdgeHolds(cfg: Config, s: Sim, st: GraphStep)
    requires ListsOk(cfg) && cfg.misfire == None && Standing(cfg, s) && IsEdge(GameGraph(), st) && st.frm == s.screen
    ensures Leads(cfg, Execute(cfg, s, st.action), st.to)
  {
    GameEdges(st);
    if IsForward(GameGraph(), st) {
      ForwardHolds(cfg, s, Edge(st.to, st.action));
    } else {
      EnterSettles(cfg, s, st.to, s.chosen);
    }
  }

  // ----- shortest routes do not cross themselves -----

  lemma {:induction false} WalkSplits(g: Graph, p: seq<GraphStep>, a: NavGraph.Screen, b: NavGraph.Screen, i: nat)
    requires IsWalk(g, p, a, b) && i < |p|
    ensures IsWalk(g, p[..i], a, p[i].frm) && IsWalk(g, p[i..], p[i].frm, b) && IsEdge(g, p[i])
    decreases i
  {
    if i > 0 {
      WalkSplits(g, p[1..], p[0].to, b, i - 1);
      assert p[1..][..i - 1] == p[..i][1..] && p[1..][i - 1..] == p[i..];
    } else {
      assert p[0..] == p;
    }
  }

  lemma {:induction false} WalkJoins(g: Graph, p: seq<GraphStep>, q: seq<GraphStep>, a: NavGraph.Screen, c: NavGraph.Screen, b: NavGraph.Screen)
    requires IsWalk(g, p, a, c) && IsWalk(g, q, c, b)
    ensures IsWalk(g, p + q, a, b)
    decreases |p|
  {
    if p == [] {
      assert p + q == q;
    } else {
      WalkJoins(g, p[1..], q, p[0].to, c, b);
      assert (p + q)[1..] == p[1..] + q;
    }
  }

  ghost predicate Shortest(g: Graph, p: seq<GraphStep>, a: NavGraph.Screen, b: NavGraph.Screen)
  {
    IsWalk(g, p, a, b) && forall q :: IsWalk(g, q, a, b) ==> |p| <= |q|
  }

  lemma NeverTwice(g: Graph, p: seq<GraphStep>, a: NavGraph.Screen, b: NavGraph.Screen, i: nat, j: nat)
    requires Shortest(g, p, a, b) && i < j < |p|
    ensures p[i].frm != p[j].frm
  {
    WalkSplits(g, p, a, b, i);
    WalkSplits(g, p, a, b, j);
    if p[i].frm == p[j].frm {
      WalkJoins(g, p[..i], p[j..], a, p[i].frm, b);
    }
  }

  lemma NotYetThere(g: Graph, p: seq<GraphStep>, a: NavGraph.Screen, b: NavGraph.Screen, i: nat)
    requires Shortest(g, p, a, b) && i < |p|
    ensures p[i].frm != b
  {
    WalkSplits(g, p, a, b, i);
  }

  /** Where step `i` leads: the next step's start, or the goal. */
  lemma StepMeetsNext(g: Graph, p: seq<GraphStep>, a: NavGraph.Screen, b: NavGraph.Screen, i: nat)
    requires IsWalk(g, p, a, b) && i < |p|
    ensures p[i].to == (if i + 1 < |p| then p[i + 1].frm else b) && IsEdge(g, p[i])
  {
    WalkSplits(g, p, a, b, i);
    var rest := p[i..];
    assert rest[0] == p[i] && IsWalk(g, rest[1..], p[i].to, b);
    if i + 1 < |p| { assert rest[1..][0] == p[i + 1]; }
  }

  /** The screens the steps of a route start from. */
  function Starts(p: seq<GraphStep>): set<NavGraph.Screen> { set st | st in p :: st.frm }

  lemma {:induction false} DistinctStarts(p: seq<GraphStep>)
    requires forall i, j | 0 <= i < j < |p| :: p[i].frm != p[j].frm
    ensures |Starts(p)| == |p|
  {
    if p != [] {
      var front, last := p[..|p| - 1], p[|p| - 1];
      DistinctStarts(front);
      assert Starts(p) == Starts(front) + {last.frm};
      forall st | st in front
        ensures st.frm != last.frm
      {
        var i :| 0 <= i < |front| && front[i] == st;
        assert p[i].frm != p[|p| - 1].frm;
      }
    }
  }

  lemma SmallerSet(a: set<NavGraph.Screen>, b: set<NavGraph.Screen>)
    requires a <= b
    ensures |a| <= |b|
  {
    assert b == a + (b - a);
  }

  lemma EdgeStartsNamed(st: GraphStep)
    requires IsEdge(GameGraph(), st)
    ensures st.frm in NAMED
  {
    GameEdges(st);
    NamedOrNot(st.frm);
  }

  lemma StartsNamed(p: seq<GraphStep>, a: NavGraph.Screen, b: NavGraph.Screen)
    requires IsWalk(GameGraph(), p, a, b)
    ensures Starts(p) <= NAMED
  {
    forall st | st in p
      ensures st.frm in NAMED
    {
      var i :| 0 <= i < |p| && p[i] == st;
      StepMeetsNext(GameGraph(), p, a, b, i);
      EdgeStartsNamed(st);
    }
  }

  lemma ThirteenNamed()
    ensures |NAMED| == 13
  {
    var menus := {MainMenu, TrainingMenu, TutorialsMenu, SongSelect, PartSelect, DifficultySelect, SectionSelect};
    var others := {SpeedSelect, Loading, InSong, PauseMenu, QuitConfirm, PracticeEndMenu};
    assert |menus| == 7 && |others| == 6 && menus !! others && NAMED == menus + others;
  }

  lemma RouteIsShort(p: seq<GraphStep>, a: NavGraph.Screen, b: NavGraph.Screen)
    requires Shortest(GameGraph(), p, a, b)
    ensures |p| <= 13
  {
    forall i, j | 0 <= i < j < |p|
      ensures p[i].frm != p[j].frm
    {
      NeverTwice(GameGraph(), p, a, b, i, j);
    }
    DistinctStarts(p);
    StartsNamed(p, a, b);
    SmallerSet(Starts(p), NAMED);
    ThirteenNamed();
  }

  // ----- planning a route and driving along it -----

  /** The plan made of a route. */
  function RoutePlan(p: seq<GraphStep>, goal: NavGraph.Screen): Plan
  {
    Plan(seq(|p|, i requires 0 <= i < |p| => Step(p[i].frm, p[i].action, p[i].to)), goal)
  }

  lemma RouteStep(g: Graph, p: seq<GraphStep>, a: NavGraph.Screen, b: NavGraph.Screen, i: nat)
    requires Shortest(g, p, a, b) && i < |p|
    ensures var step := StepFor(RoutePlan(p, b).steps, p[i].frm, 0); step.Some? && step.value.action == p[i].action
  {
    var steps := RoutePlan(p, b).steps;
    forall j | 0 <= j < i
      ensures steps[j].expectedFrom != steps[i].expectedFrom
    {
      NeverTwice(g, p, a, b, j, i);
    }
    FindStep(steps, i, 0);
  }

  lemma SettledStands(cfg: Config, s: Sim)
    requires Settled(cfg, s)
    ensures Standing(cfg, Observe(cfg, s)) && Observe(cfg, s).screen == s.screen
  {
  }

  /** One iteration of the controller's loop. */
  lemma LoopStep(cfg: Config, s: Sim, plan: Plan, recover: nat, n: nat, action: Action, s': Sim)
    requires n >= 1
    requires var o := Observe(cfg, s);
             var step := StepFor(plan.steps, o.screen, 0);
             o.screen != plan.goal && step.Some? && step.value.action == action && Execute(cfg, o, action) == Ok(s')
    ensures RunPlan(cfg, s, plan, recover, n) == RunPlan(cfg, s', plan, 0, n - 1)
  {
  }

  lemma LoopEnds(cfg: Config, s: Sim, plan: Plan, recover: nat, n: nat)
    requires n >= 1 && Observe(cfg, s).screen == plan.goal
    ensures var r := RunPlan(cfg, s, plan, recover, n); r.Ok? && r.value.screen == plan.goal
  {
  }

  /** Step `i` of the route takes the menu from `s` to `s'`. */
  ghost predicate StepsTo(cfg: Config, p: seq<GraphStep>, s: Sim, i: nat, s': Sim)
    requires i < |p|
  {
    Execute(cfg, Observe(cfg, s), p[i].action) == Ok(s')
  }

  /** On screen `i` of the route. */
  ghost predicate AtStep(cfg: Config, p: seq<GraphStep>, b: NavGraph.Screen, s: Sim, i: nat)
  {
    Settled(cfg, s) && i <= |p| && s.screen == if i < |p| then p[i].frm else b
  }

  lemma StepTaken(cfg: Config, p: seq<GraphStep>, a: NavGraph.Screen, b: NavGraph.Screen, s: Sim, i: nat) returns (s': Sim)
    requires ListsOk(cfg) && cfg.misfire == None && Shortest(GameGraph(), p, a, b) && i < |p| && AtStep(cfg, p, b, s, i)
    ensures StepsTo(cfg, p, s, i, s') && AtStep(cfg, p, b, s', i + 1)
  {
    var o := Observe(cfg, s);
    SettledStands(cfg, s);
    StepMeetsNext(GameGraph(), p, a, b, i);
    EdgeHolds(cfg, o, p[i]);
    s' := Execute(cfg, o, p[i].action).value;
  }

  /** The plan does on each screen of the route what the route does, and ends at its goal. */
  ghost predicate Plans(plan: Plan, p: seq<GraphStep>, b: NavGraph.Screen)
  {
    plan.goal == b && forall i: nat | i < |p| ::
      p[i].frm != b && StepFor(plan.steps, p[i].frm, 0).Some? && StepFor(plan.steps, p[i].frm, 0).value.action == p[i].action
  }

  lemma RoutePlans(p: seq<GraphStep>, a: NavGraph.Screen, b: NavGraph.Screen)
    requires Shortest(GameGraph(), p, a, b)
    ensures Plans(RoutePlan(p, b), p, b)
  {
    forall i: nat | i < |p|
      ensures p[i].frm != b && StepFor(RoutePlan(p, b).steps, p[i].frm, 0).Some?
      ensures StepFor(RoutePlan(p, b).steps, p[i].frm, 0).value.action == p[i].action
    {
      NotYetThere(GameGraph(), p, a, b, i);
      RouteStep(GameGraph(), p, a, b, i);
    }
  }

  lemma LoopTakes(cfg: Config, plan: Plan, p: seq<GraphStep>, b: NavGraph.Screen, s: Sim, i: nat, s': Sim, recover: nat, n: nat)
    requires Plans(plan, p, b) && i < |p| && AtStep(cfg, p, b, s, i) && n >= 1 && StepsTo(cfg, p, s, i, s')
    ensures PlanLoop(cfg, plan)(s, recover, n) == PlanLoop(cfg, plan)(s', 0, n - 1)
  {
    SettledStands(cfg, s);
    LoopStep(cfg, s, plan, recover, n, p[i].action, s');
  }

  lemma LoopStops(cfg: Config, plan: Plan, p: seq<GraphStep>, b: NavGraph.Screen, s: Sim, recover: nat, n: nat)
    requires plan.goal == b && AtStep(cfg, p, b, s, |p|) && n >= 1
    ensures var r := PlanLoop(cfg, plan)(s, recover, n); r.Ok? && r.value.screen == b
  {
    SettledStands(cfg, s);
    LoopEnds(cfg, s, plan, recover, n);
  }

  /** The loop goes on from `s` as from `s'`. */
  ghost predicate GoesOn(run: Loop, s: Sim, s': Sim)
  {
    forall recover: nat, n: nat {:trigger run(s, recover, n)} | n >= 1 :: run(s, recover, n) == run(s', 0, n - 1)
  }

  ghost predicate Passes(run: Loop, states: seq<Sim>) { forall k: nat | k < |states| - 1 :: GoesOn(run, states[k], states[k + 1]) }

  lemma {:induction false} GoesToEnd(run: Loop, states: seq<Sim>, k: nat, recover: nat, n: nat) returns (r: nat, m: nat)
    requires Passes(run, states) && k < |states| && n >= |states| - k
    ensures m >= 1 && run(states[k], recover, n) == run(states[|states| - 1], r, m)
    decreases |states| - k
  {
    r, m := recover, n;
    if k < |states| - 1 {
      assert GoesOn(run, states[k], states[k + 1]);
      r, m := GoesToEnd(run, states, k + 1, 0, n - 1);
    }
  }

  lemma LoopAlwaysTakes(cfg: Config, plan: Plan, p: seq<GraphStep>, b: NavGraph.Screen, s: Sim, i: nat, s': Sim)
    requires Plans(plan, p, b) && i < |p| && AtStep(cfg, p, b, s, i) && StepsTo(cfg, p, s, i, s')
    ensures GoesOn(PlanLoop(cfg, plan), s, s')
  {
    var run := PlanLoop(cfg, plan);
    forall recover: nat, n: nat | n >= 1
      ensures run(s, recover, n) == run(s', 0, n - 1)
    {
      LoopTakes(cfg, plan, p, b, s, i, s', recover, n);
    }
  }

  lemma LoopTurns(cfg: Config, plan: Plan, p: seq<GraphStep>, a: NavGraph.Screen, b: NavGraph.Screen, s: Sim, i: nat)
      returns (s': Sim)
    requires ListsOk(cfg) && cfg.misfire == None && Shortest(GameGraph(), p, a, b) && Plans(plan, p, b)
    requires i < |p| && AtStep(cfg, p, b, s, i)
    ensures GoesOn(PlanLoop(cfg, plan), s, s') && AtStep(cfg, p, b, s', i + 1)
  {
    s' := StepTaken(cfg, p, a, b, s, i);
    LoopAlwaysTakes(cfg, plan, p, b, s, i, s');
  }

  lemma PassesGrows(run: Loop, s: Sim, rest: seq<Sim>)
    requires rest != [] && GoesOn(run, s, rest[0]) && Passes(run, rest)
    ensures Passes(run, [s] + rest)
  {
    var states := [s] + rest;
    forall k: nat | k < |states| - 1
      ensures GoesOn(run, states[k], states[k + 1])
    {
      if k > 0 { assert GoesOn(run, rest[k - 1], rest[k - 1 + 1]); }
    }
  }

  /** The menus along the route from step `i` on. */
  lemma {:induction false} RouteStates(cfg: Config, plan: Plan, p: seq<GraphStep>, a: NavGraph.Screen, b: NavGraph.Screen, s: Sim,
                                       i: nat) returns (states: seq<Sim>)
    requires ListsOk(cfg) && cfg.misfire == None && Shortest(GameGraph(), p, a, b) && Plans(plan, p, b)
    requires AtStep(cfg, p, b, s, i)
    ensures |states| == |p| - i + 1 && states[0] == s && AtStep(cfg, p, b, states[|p| - i], |p|)
    ensures Passes(PlanLoop(cfg, plan), states)
    decreases |p| - i
  {
    states := [s];
    if i < |p| {
      var s' := LoopTurns(cfg, plan, p, a, b, s, i);
      var rest := RouteStates(cfg, plan, p, a, b, s', i + 1);
      PassesGrows(PlanLoop(cfg, plan), s, rest);
      states := [s] + rest;
    }
  }

  lemma RunsToEnd(cfg: Config, plan: Plan, p: seq<GraphStep>, b: NavGraph.Screen, states: seq<Sim>, recover: nat, n: nat)
    requires plan.goal == b && states != [] && Passes(PlanLoop(cfg, plan), states) && n >= |states|
    requires AtStep(cfg, p, b, states[|states| - 1], |p|)
    ensures var r := PlanLoop(cfg, plan)(states[0], recover, n); r.Ok? && r.value.screen == b
  {
    var r, m := GoesToEnd(PlanLoop(cfg, plan), states, 0, recover, n);
    LoopStops(cfg, plan, p, b, states[|states| - 1], r, m);
  }

  /** From step `i` on the controller follows the route to its end. */
  lemma FollowsRoute(cfg: Config, p: seq<GraphStep>, a: NavGraph.Screen, b: NavGraph.Screen, s: Sim, i: nat,
                     recover: nat, n: nat)
    requires ListsOk(cfg) && cfg.misfire == None && Shortest(GameGraph(), p, a, b)
    requires AtStep(cfg, p, b, s, i) && n >= |p| - i + 1
    ensures var r := PlanLoop(cfg, RoutePlan(p, b))(s, recover, n); r.Ok? && r.value.screen == b
  {
    RoutePlans(p, a, b);
    var states := RouteStates(cfg, RoutePlan(p, b), p, a, b, s, i);
    RunsToEnd(cfg, RoutePlan(p, b), p, b, states, recover, n);
  }

  /** From the loading screen the game is in the song by the time it is first observed. */
  lemma FromLoading(cfg: Config, p: seq<GraphStep>, b: NavGraph.Screen, n: nat)
    requires ListsOk(cfg) && cfg.misfire == None && Shortest(GameGraph(), p, Loading, b) && p != [] && n >= |p|
    ensures var r := RunPlan(cfg, Initial(cfg, Loading), RoutePlan(p, b), 0, n); r.Ok? && r.value.screen == b
  {
    var s := Initial(cfg, Loading);
    var o := Observe(cfg, s);
    StepMeetsNext(GameGraph(), p, Loading, b, 0);
    GameEdges(p[0]);
    EnterSettles(cfg, s, InSong, s.chosen);
    assert o == Enter(cfg, s, InSong, s.chosen);
    FollowsRoute(cfg, p, Loading, b, o, 1, 0, n);
    assert RunPlan(cfg, s, RoutePlan(p, b), 0, n) == RunPlan(cfg, o, RoutePlan(p, b), 0, n) by {
      SameObserved(cfg, s, o, RoutePlan(p, b), 0, n);
    }
  }

  lemma SameObserved(cfg: Config, s: Sim, o: Sim, plan: Plan, recover: nat, n: nat)
    requires Observe(cfg, s) == o == Observe(cfg, o)
    ensures RunPlan(cfg, s, plan, recover, n) == RunPlan(cfg, o, plan, recover, n)
  {
  }

  /** In the song without a step or a parent the controller gives up. */
  lemma {:induction false} StuckInSong(cfg: Config, s: Sim, recover: nat, n: nat)
    requires s.screen == InSong && recover <= MAX_RECOVER && n >= MAX_RECOVER + 1 - recover
    ensures RunPlan(cfg, s, Plan([], Loading), recover, n) == Err(CannotRecover)
    decreases MAX_RECOVER - recover
  {
    if recover < MAX_RECOVER { StuckInSong(cfg, s, recover + 1, n - 1); }
  }

  lemma NeverAtLoading(cfg: Config, n: nat)
    requires n >= MAX_RECOVER + 1
    ensures RunPlan(cfg, Initial(cfg, Loading), Plan([], Loading), 0, n) == Err(CannotRecover)
  {
    var s := Initial(cfg, Loading);
    var o := Observe(cfg, s);
    SameObserved(cfg, s, o, Plan([], Loading), 0, n);
    StuckInSong(cfg, o, 0, n);
  }

  /** Driven along a shortest route the controller arrives, unless it is to stay on the loading screen. */
  lemma RouteArrives(cfg: Config, p: seq<GraphStep>, start: NavGraph.Screen, goal: NavGraph.Screen, n: nat)
    requires ListsOk(cfg) && cfg.misfire == None && Shortest(GameGraph(), p, start, goal) && n >= 14
    ensures var r := RunPlan(cfg, Initial(cfg, start), RoutePlan(p, goal), 0, n);
      (r.Ok? <==> !(start == Loading == goal)) && (r.Ok? ==> r.value.screen == goal)
  {
    RouteIsShort(p, start, goal);
    if start != Loading {
      EnterSettles(cfg, Initial(cfg, start), start, NOTHING);
      FollowsRoute(cfg, p, start, goal, Initial(cfg, start), 0, 0, n);
    } else if p != [] {
      FromLoading(cfg, p, goal, n);
      NotYetThere(GameGraph(), p, start, goal, 0);
    } else {
      assert RoutePlan(p, goal) == Plan([], Loading);
      NeverAtLoading(cfg, n);
    }
  }

  /** `plan_goto`. */
  method PlanGoto(start: NavGraph.Screen, target: NavGraph.Screen) returns (r: Result<Plan, NavError>, ghost p: seq<GraphStep>)
    ensures r.Ok? ==> Shortest(GameGraph(), p, start, target) && r.value == RoutePlan(p, target)
    ensures r.Err? ==> forall q :: !IsWalk(GameGraph(), q, start, target)
  {
    p := [];
    var path := ShortestPath(GameGraph(), start, target);
    if path == None { return Err(NoRoute), p; }
    p := path.value;
    var steps := StepsOf(path.value);
    return Ok(Plan(steps, target)), p;
  }

  method StepsOf(path: seq<GraphStep>) returns (steps: seq<Step>)
    ensures steps == RoutePlan(path, MainMenu).steps
  {
    steps := [];
    for i := 0 to |path|
      invariant |steps| == i && forall j | 0 <= j < i :: steps[j] == Step(path[j].frm, path[j].action, path[j].to)
    {
      steps := steps + [Step(path[i].frm, path[i].action, path[i].to)];
    }
  }

  /** Planning and driving from any screen to any other: the controller arrives exactly when the tables
    * have a walk there and the task is not to stay on the loading screen. */
  method Goto(cfg: Config, start: NavGraph.Screen, target: NavGraph.Screen) returns (r: Result<Sim, NavError>)
    requires ListsOk(cfg) && cfg.misfire == None
    ensures r.Ok? <==> (exists p :: IsWalk(GameGraph(), p, start, target)) && !(start == Loading == target)
    ensures r.Ok? ==> r.value.screen == target
  {
    var plan, p := PlanGoto(start, target);
    if plan.Err? { return Err(plan.error); }
    assert IsWalk(GameGraph(), p, start, target);
    var game := new Game(start, cfg);
    var controller := new NavController(game);
    ghost var budget := MAX_ITERS;
    r := controller.Run(plan.value);
    RouteArrives(cfg, p, start, target, budget);
    assert r == RunPlan(cfg, Initial(cfg, start), RoutePlan(p, target), 0, budget);
    assert r.Ok? <==> !(start == Loading == target);
    assert exists q :: IsWalk(GameGraph(), q, start, target);
  }
}
