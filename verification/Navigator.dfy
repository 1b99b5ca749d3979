/** The menu navigator (navigator.py): a linear plan driven closed-loop against the menu. */
module Navigator {
  import opened Wrappers
  import opened NavGraph
  import opened SimGame

  const MAX_ITERS: nat := 60
  const MAX_RECOVER: nat := 12
  const MAX_MOVE: nat := 64

  datatype Step = Step(expectedFrom: Screen, action: Action, expectedTo: Screen)

  datatype Plan = Plan(steps: seq<Step>, goal: Screen)

  datatype NavError = UnknownItem | NotExecutable | WaitTimedOut | CannotRecover | BudgetExhausted | UnknownChoice | NoRoute

  /** `plan_practice_run`. */
  function PlanPracticeRun(song: int, difficulty: Item, part: Item): Result<Plan, NavError>
  {
    if difficulty !in Layout(DifficultySelect).value || part !in Layout(PartSelect).value then Err(UnknownChoice)
    else Ok(PracticePlan(song, difficulty, part))
  }

  function PracticePlan(song: int, difficulty: Item, part: Item): Plan
  {
    Plan([
      Step(MainMenu, SelectItem(Training), TrainingMenu),
      Step(TrainingMenu, SelectItem(Practice), SongSelect),
      Step(SongSelect, SelectIndex(song), PartSelect),
      Step(PartSelect, SelectItem(part), DifficultySelect),
      Step(DifficultySelect, SelectItem(difficulty), SectionSelect),
      Step(SectionSelect, SaturateTop, SpeedSelect),
      Step(SpeedSelect, SaturateTop, Loading),
      Step(Loading, WaitFor(InSong), InSong)], InSong)
  }

  // ----- what the controller does to the menu, as functions of its state -----

  function Moves(cfg: Config, s: Sim, inp: MenuInput, n: nat): Sim
  {
    if n == 0 then s else Apply(cfg, Moves(cfg, s, inp, n - 1), inp)
  }

  function Min(a: int, b: int): int { if a < b then a else b }

  /** `_select_to`. */
  function SelectTo(cfg: Config, s: Sim, target: int): Sim
  {
    var o := Observe(cfg, s);
    var delta := target - o.selection;
    var n := Min(if delta > 0 then delta else -delta, MAX_MOVE);
    Apply(cfg, Moves(cfg, o, if delta > 0 then StrumDown else StrumUp, n), GreenBtn)
  }

  /** The loop of `_saturate_top` with `n` passes left. */
  function ClimbToTop(cfg: Config, s: Sim, prev: Option<int>, n: nat): Sim
    decreases n, cfg
  {
    if n == 0 then s else
    var o := Observe(cfg, s);
    if o.selection == 0 || prev == Some(o.selection) then o
    else ClimbToTop(cfg, Apply(cfg, o, StrumUp), Some(o.selection), n - 1)
  }

  /** `_wait_for` with `n` looks left. */
  function WaitUntil(cfg: Config, s: Sim, screen: Screen, n: nat): Result<Sim, NavError>
    decreases n, cfg
  {
    if n == 0 then Err(WaitTimedOut) else
    var o := Observe(cfg, s);
    if o.screen == screen then Ok(o) else WaitUntil(cfg, o, screen, n - 1)
  }

  /** `_execute`. */
  function Execute(cfg: Config, s: Sim, action: Action): Result<Sim, NavError>
  {
    match action
    case Press(inp) => Ok(Apply(cfg, s, inp))
    case SelectItem(item) =>
      var o := Observe(cfg, s);
      var layout := Layout(o.screen);
      if layout == None || IndexOf(layout.value, item, 0) < 0 then Err(UnknownItem)
      else Ok(SelectTo(cfg, o, IndexOf(layout.value, item, 0)))
    case SelectIndex(index) => Ok(SelectTo(cfg, s, index))
    case SaturateTop => Ok(Apply(cfg, ClimbToTop(cfg, s, None, MAX_MOVE), GreenBtn))
    case WaitFor(screen) => WaitUntil(cfg, s, screen, MAX_ITERS)
    case SelectSong => Err(NotExecutable)
  }

  /** `_step_for`: the first step that starts from `screen`. */
  function StepFor(steps: seq<Step>, screen: Screen, from: nat): (r: Option<Step>)
    decreases |steps| - from
  {
    if from >= |steps| then None
    else if steps[from].expectedFrom == screen then Some(steps[from])
    else StepFor(steps, screen, from + 1)
  }

  /** `run` with `n` iterations left. */
  function RunPlan(cfg: Config, s: Sim, plan: Plan, recover: nat, n: nat): Result<Sim, NavError>
    decreases n, cfg
  {
    if n == 0 then Err(BudgetExhausted) else
    var o := Observe(cfg, s);
    if o.screen == plan.goal then Ok(o) else
    var step := StepFor(plan.steps, o.screen, 0);
    if step.Some? then
      var r := Execute(cfg, o, step.value.action);
      if r.Err? then r else RunPlan(cfg, r.value, plan, 0, n - 1)
    else if recover + 1 > MAX_RECOVER then Err(CannotRecover)
    else RunPlan(cfg, Apply(cfg, o, RedBtn), plan, recover + 1, n - 1)
  }

  // ----- the controller -----

  class NavController {
    const game: Game

    constructor (game: Game)
      ensures this.game == game
    {
      this.game := game;
    }

    /** `run`. */
    method Run(plan: Plan) returns (r: Result<Sim, NavError>)
      modifies game
      ensures r == RunPlan(game.cfg, old(game.state), plan, 0, MAX_ITERS)
      ensures r.Ok? ==> r.value == game.state
    {
      var recover: nat := 0;
      ghost var result := RunPlan(game.cfg, game.state, plan, 0, MAX_ITERS);
      for i := 0 to MAX_ITERS
        invariant result == RunPlan(game.cfg, game.state, plan, recover, MAX_ITERS - i)
      {
        var screen, _ := game.ObserveState();
        if screen == plan.goal { return Ok(game.state); }
        var step := StepFor(plan.steps, screen, 0);
        if step.Some? {
          var done := ExecuteAction(step.value.action);
          if done.Err? { return done; }
          recover := 0;
        } else {
          recover := recover + 1;
          if recover > MAX_RECOVER { return Err(CannotRecover); }
          game.Send(RedBtn);
        }
      }
      return Err(BudgetExhausted);
    }

    method ExecuteAction(action: Action) returns (r: Result<Sim, NavError>)
      modifies game
      ensures r == Execute(game.cfg, old(game.state), action)
      ensures r.Ok? ==> r.value == game.state
    {
      match action
      case Press(inp) => game.Send(inp); return Ok(game.state);
      case SelectItem(item) =>
        var screen, _ := game.ObserveState();
        var layout := Layout(screen);
        if layout == None { return Err(UnknownItem); }
        var index := IndexOf(layout.value, item, 0);
        if index < 0 { return Err(UnknownItem); }
        MoveTo(index);
        return Ok(game.state);
      case SelectIndex(index) => MoveTo(index); return Ok(game.state);
      case SaturateTop => Saturate(); return Ok(game.state);
      case WaitFor(screen) => r := AwaitScreen(screen);
      case SelectSong => return Err(NotExecutable);
    }

    method MoveTo(target: int)
      modifies game
      ensures game.state == SelectTo(game.cfg, old(game.state), target)
    {
      var _, cur := game.ObserveState();
      var delta := target - cur;
      var move := if delta > 0 then StrumDown else StrumUp;
      ghost var o := game.state;
      for i := 0 to Min(if delta > 0 then delta else -delta, MAX_MOVE)
        invariant game.state == Moves(game.cfg, o, move, i)
      {
        game.Send(move);
      }
      game.Send(GreenBtn);
    }

    method Saturate()
      modifies game
      ensures game.state == Apply(game.cfg, ClimbToTop(game.cfg, old(game.state), None, MAX_MOVE), GreenBtn)
    {
      var prev: Option<int> := None;
      ghost var top := ClimbToTop(game.cfg, game.state, None, MAX_MOVE);
      for i := 0 to MAX_MOVE
        invariant top == ClimbToTop(game.cfg, game.state, prev, MAX_MOVE - i)
      {
        var _, cur := game.ObserveState();
        if cur == 0 || prev == Some(cur) { break; }
        prev := Some(cur);
        game.Send(StrumUp);
      }
      game.Send(GreenBtn);
    }

    method AwaitScreen(screen: Screen) returns (r: Result<Sim, NavError>)
      modifies game
      ensures r == WaitUntil(game.cfg, old(game.state), screen, MAX_ITERS)
      ensures r.Ok? ==> r.value == game.state
    {
      ghost var result := WaitUntil(game.cfg, game.state, screen, MAX_ITERS);
      for i := 0 to MAX_ITERS
        invariant result == WaitUntil(game.cfg, game.state, screen, MAX_ITERS - i)
      {
        var now, _ := game.ObserveState();
        if now == screen { return Ok(game.state); }
      }
      return Err(WaitTimedOut);
    }
  }
}
