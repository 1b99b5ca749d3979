/** Menu routing (navgraph.py): breadth-first search over the concrete edges of any finite
  * menu graph. */
module NavGraph {
  import opened Wrappers

  /** The screen ids of the game menus; `Other` stands for any further screen. */
  datatype Screen =
    | MainMenu | TrainingMenu | TutorialsMenu | SongSelect | PartSelect | DifficultySelect
    | SectionSelect | SpeedSelect | Loading | InSong | PauseMenu | QuitConfirm | PracticeEndMenu
    | Other(id: nat)

  /** Static-list item ids. */
  datatype Item =
    | Career | CoOpCareer | Quickplay | Multiplayer | Training | Options | NintendoWfc
    | Easy | Medium | Hard | Expert
    | FullSpeed | Slow | Slower | Slowest
    | Resume | Restart | ChangeSpeed | ChangeSection | NewSong | Quit | Continue | Cancel
    | Tutorials | Practice | Lead | Rhythm

  datatype MenuInput = GreenBtn | RedBtn | StrumUp | StrumDown | BlueBtn | YellowBtn | PlusBtn

  datatype Action =
    | Press(input: MenuInput)
    | SelectItem(item: Item)
    | SelectIndex(index: int)
    | SelectSong
    | SaturateTop
    | WaitFor(screen: Screen)

  datatype GraphStep = GraphStep(frm: Screen, action: Action, to: Screen)

  datatype Edge = Edge(to: Screen, action: Action)

  /** The tables `FORWARD` and `PARENT`. */
  datatype Graph = Graph(forward: map<Screen, seq<Edge>>, parent: map<Screen, Screen>)

  /** The forward edges a generic route may take: all but the parameterized song choice. */
  function ConcreteSteps(cur: Screen, edges: seq<Edge>): seq<GraphStep>
  {
    if edges == [] then []
    else
      ConcreteSteps(cur, edges[..|edges| - 1]) +
      (var e := edges[|edges| - 1]; if e.action.SelectSong? then [] else [GraphStep(cur, e.action, e.to)])
  }

  /** All concrete edges out of a screen: forward ones, then RED to its parent. */
  function Steps(g: Graph, cur: Screen): seq<GraphStep>
  {
    (if cur in g.forward then ConcreteSteps(cur, g.forward[cur]) else []) +
    (if cur in g.parent then [GraphStep(cur, Press(RedBtn), g.parent[cur])] else [])
  }

  // ----- edges and walks, from the two tables alone -----

  /** A table edge from `st.frm` that is not the song choice. */
  ghost predicate IsForward(g: Graph, st: GraphStep)
  {
    st.frm in g.forward && st.action != SelectSong && Edge(st.to, st.action) in g.forward[st.frm]
  }

  /** RED to the parent. */
  ghost predicate IsBack(g: Graph, st: GraphStep)
  {
    st.frm in g.parent && st.action == Press(RedBtn) && st.to == g.parent[st.frm]
  }

  ghost predicate IsEdge(g: Graph, st: GraphStep) { IsForward(g, st) || IsBack(g, st) }

  lemma {:induction false} ConcreteExactly(cur: Screen, edges: seq<Edge>, st: GraphStep)
    ensures st in ConcreteSteps(cur, edges) <==>
              st.frm == cur && st.action != SelectSong && Edge(st.to, st.action) in edges
  {
    if edges != [] {
      var front, e := edges[..|edges| - 1], edges[|edges| - 1];
      ConcreteExactly(cur, front, st);
      assert edges == front + [e];
    }
  }

  /** What the search expands is exactly the table's concrete edges and RED. */
  lemma StepsExactly(g: Graph, cur: Screen, st: GraphStep)
    ensures st in Steps(g, cur) <==> st.frm == cur && IsEdge(g, st)
  {
    if cur in g.forward { ConcreteExactly(cur, g.forward[cur], st); }
  }

  /** Consecutive edges from `a` to `b`. */
  ghost predicate IsWalk(g: Graph, path: seq<GraphStep>, a: Screen, b: Screen)
  {
    if path == [] then a == b
    else path[0].frm == a && IsEdge(g, path[0]) && IsWalk(g, path[1..], path[0].to, b)
  }

  // ----- the finite set of screens -----

  function Targets(edges: seq<Edge>): set<Screen> { set e | e in edges :: e.to }

  ghost function Screens(g: Graph, start: Screen): set<Screen>
  {
    {start} + (set s, t | s in g.forward && t in Targets(g.forward[s]) :: t) + g.parent.Values
  }

  lemma {:induction false} ConcreteTargets(cur: Screen, edges: seq<Edge>)
    ensures forall st | st in ConcreteSteps(cur, edges) :: st.frm == cur && st.to in Targets(edges)
  {
    if edges != [] {
      ConcreteTargets(cur, edges[..|edges| - 1]);
    }
  }

  lemma StepsStayInside(g: Graph, start: Screen, cur: Screen)
    ensures forall st | st in Steps(g, cur) :: st.frm == cur && st.to in Screens(g, start)
  {
    if cur in g.forward { ConcreteTargets(cur, g.forward[cur]); }
  }

  // ----- search state -----

  ghost function Edges(g: Graph): iset<GraphStep> { iset st: GraphStep | IsEdge(g, st) }

  /** `prev` is a tree of shortest steps: every seen screen but the start hangs one step
    * below a screen one closer to the start. */
  ghost predicate TreeOf(edges: iset<GraphStep>, start: Screen, prev: map<Screen, GraphStep>, dist: map<Screen, nat>)
  {
    && start in dist && dist[start] == 0 && start !in prev && dist.Keys == prev.Keys + {start}
    && forall v | v in prev ::
         prev[v].to == v && prev[v].frm in dist && prev[v] in edges && dist[v] == dist[prev[v].frm] + 1
  }

  ghost predicate Tree(g: Graph, start: Screen, prev: map<Screen, GraphStep>, dist: map<Screen, nat>)
  {
    TreeOf(Edges(g), start, prev, dist)
  }

  /** Every edge out of `v` leads to a seen screen at most one further from the start. */
  ghost predicate Explored(all: iset<GraphStep>, dist: map<Screen, nat>, v: Screen)
    requires v in dist
  {
    forall st | st in all && st.frm == v :: st.to in dist && dist[st.to] <= dist[v] + 1
  }

  /** The queue holds exactly the seen but unexplored screens, nearest first, within one step of each other. */
  ghost predicate Frontier(dist: map<Screen, nat>, done: set<Screen>, q: seq<Screen>, near: nat)
  {
    && (forall i | 0 <= i < |q| :: q[i] in dist && q[i] !in done && near <= dist[q[i]] <= near + 1)
    && (forall i, j | 0 <= i < j < |q| :: q[i] != q[j] && dist[q[i]] <= dist[q[j]])
    && (forall v | v in dist :: v in done || v in q)
  }

  /** A walk can only leave the explored screens at distance `near` or more. */
  lemma {:induction false} WalkStaysSeen(g: Graph, dist: map<Screen, nat>, done: set<Screen>, near: nat,
                                         path: seq<GraphStep>, a: Screen, b: Screen)
    requires forall v | v in done :: v in dist && Explored(Edges(g), dist, v)
    requires forall v | v in dist && dist[v] < near :: v in done
    requires a in dist && dist[a] + |path| <= near && IsWalk(g, path, a, b)
    ensures b in dist
    decreases |path|
  {
    if path != [] {
      assert path[0] in Edges(g);
      WalkStaysSeen(g, dist, done, near, path[1..], path[0].to, b);
    }
  }

  /** Once everything seen is explored, no walk leaves it. */
  lemma {:induction false} ClosedUnderWalks(g: Graph, dist: map<Screen, nat>, path: seq<GraphStep>, a: Screen, b: Screen)
    requires forall v | v in dist :: Explored(Edges(g), dist, v)
    requires a in dist && IsWalk(g, path, a, b)
    ensures b in dist
    decreases |path|
  {
    if path != [] {
      assert path[0] in Edges(g);
      ClosedUnderWalks(g, dist, path[1..], path[0].to, b);
    }
  }

  function Reverse(path: seq<GraphStep>): (r: seq<GraphStep>)
    ensures |r| == |path|
  {
    if path == [] then [] else [path[|path| - 1]] + Reverse(path[..|path| - 1])
  }

  lemma ReverseGrows(back: seq<GraphStep>, s: GraphStep)
    ensures Reverse(back + [s]) == [s] + Reverse(back)
  {
    assert (back + [s])[..|back|] == back;
  }

  lemma WalkGrows(g: Graph, s: GraphStep, tail: seq<GraphStep>, b: Screen)
    requires IsEdge(g, s) && IsWalk(g, tail, s.to, b)
    ensures IsWalk(g, [s] + tail, s.frm, b)
  {
    assert ([s] + tail)[1..] == tail;
  }

  /** Follows `prev` back from the goal and reverses the result. */
  method TracePath(g: Graph, start: Screen, goal: Screen, prev: map<Screen, GraphStep>, ghost dist: map<Screen, nat>)
      returns (path: seq<GraphStep>)
    requires Tree(g, start, prev, dist) && goal in dist
    ensures IsWalk(g, path, start, goal) && |path| == dist[goal]
  {
    var back: seq<GraphStep> := [];
    var node := goal;
    while node != start
      invariant node in dist && IsWalk(g, Reverse(back), node, goal) && |back| + dist[node] == dist[goal]
      decreases dist[node]
    {
      var s := prev[node];
      ghost var tail := Reverse(back);
      ReverseGrows(back, s);
      WalkGrows(g, s, tail, goal);
      back := back + [s];
      node := s.frm;
    }
    path := Reverse(back);
  }

  /** Between two rounds of the outer loop. */
  ghost predicate Searching(all: iset<GraphStep>, dist: map<Screen, nat>, done: set<Screen>, q: seq<Screen>, near: nat)
  {
    && done <= dist.Keys
    && Frontier(dist, done, q, near) && (q != [] ==> near == dist[q[0]])
    && (forall v | v in done :: Explored(all, dist, v) && dist[v] <= near)
    && (forall v | v in dist && dist[v] < near :: v in done)
  }

  /** While `cur`, already taken off the queue, has the first `i` of its edges `out` explored. */
  ghost predicate Expanding(all: iset<GraphStep>, dist: map<Screen, nat>, done: set<Screen>, q: seq<Screen>, near: nat,
                            cur: Screen, out: seq<GraphStep>, i: nat)
  {
    && done <= dist.Keys && cur in dist && dist[cur] == near && cur !in done && i <= |out|
    && Frontier(dist, done + {cur}, q, near)
    && (forall v | v in done :: Explored(all, dist, v) && dist[v] <= near)
    && (forall v | v in dist && dist[v] < near :: v in done)
    && (forall k | 0 <= k < i :: out[k].to in dist && dist[out[k].to] <= near + 1)
  }

  lemma TakeFromQueue(all: iset<GraphStep>, dist: map<Screen, nat>, done: set<Screen>, q: seq<Screen>, near: nat,
                      out: seq<GraphStep>)
    requires Searching(all, dist, done, q, near) && q != []
    ensures Expanding(all, dist, done, q[1..], near, q[0], out, 0)
  {
    var rest := q[1..];
    forall v | v in dist
      ensures v in done + {q[0]} || v in rest
    {
      if v in q && v != q[0] {
        var j :| 0 <= j < |q| && q[j] == v;
        assert rest[j - 1] == v;
      }
    }
  }

  lemma FrontierGrows(dist: map<Screen, nat>, done: set<Screen>, q: seq<Screen>, near: nat, to: Screen)
    requires Frontier(dist, done, q, near) && to !in dist && done <= dist.Keys
    ensures Frontier(dist[to := near + 1], done, q + [to], near)
  {
    var q' := q + [to];
    forall v | v in dist[to := near + 1]
      ensures v in done || v in q'
    {
      if v in q {
        var j :| 0 <= j < |q| && q[j] == v;
        assert q'[j] == v;
      } else if v == to {
        assert q'[|q|] == v;
      }
    }
  }

  lemma Discover(all: iset<GraphStep>, dist: map<Screen, nat>, done: set<Screen>, q: seq<Screen>, near: nat, cur: Screen,
                 out: seq<GraphStep>, i: nat, to: Screen)
    requires Expanding(all, dist, done, q, near, cur, out, i) && i < |out|
    requires to == out[i].to && to !in dist
    ensures Expanding(all, dist[to := near + 1], done, q + [to], near, cur, out, i + 1)
  {
    var dist' := dist[to := near + 1];
    FrontierGrows(dist, done + {cur}, q, near, to);
    forall v | v in done
      ensures Explored(all, dist', v)
    {
      assert Explored(all, dist, v);
    }
  }

  lemma StepIsEdge(g: Graph, start: Screen, cur: Screen, i: nat)
    requires i < |Steps(g, cur)|
    ensures var step := Steps(g, cur)[i]; step.frm == cur && step in Edges(g) && step.to in Screens(g, start)
  {
    StepsStayInside(g, start, cur);
    assert Steps(g, cur)[i] in Steps(g, cur);
    StepsExactly(g, cur, Steps(g, cur)[i]);
  }

  lemma TreeGrows(edges: iset<GraphStep>, start: Screen, prev: map<Screen, GraphStep>, dist: map<Screen, nat>, step: GraphStep)
    requires TreeOf(edges, start, prev, dist) && step in edges && step.frm in dist && step.to !in dist
    ensures TreeOf(edges, start, prev[step.to := step], dist[step.to := dist[step.frm] + 1])
  {
  }

  /** Finding the goal one step beyond distance `near` is finding it at its distance. */
  lemma NoShorterWalk(g: Graph, dist: map<Screen, nat>, done: set<Screen>, q: seq<Screen>, near: nat, cur: Screen,
                      out: seq<GraphStep>, i: nat, start: Screen, goal: Screen)
    requires Expanding(Edges(g), dist, done, q, near, cur, out, i) && start in dist && dist[start] == 0 && goal !in dist
    ensures forall p | IsWalk(g, p, start, goal) :: near + 1 <= |p|
  {
    forall p | IsWalk(g, p, start, goal)
      ensures near + 1 <= |p|
    {
      if |p| <= near { WalkStaysSeen(g, dist, done, near, p, start, goal); }
    }
  }

  function Nearest(dist: map<Screen, nat>, q: seq<Screen>, near: nat): nat
  {
    if q != [] && q[0] in dist then dist[q[0]] else near
  }

  lemma FinishScreen(all: iset<GraphStep>, dist: map<Screen, nat>, done: set<Screen>, q: seq<Screen>, near: nat, cur: Screen,
                     out: seq<GraphStep>)
    requires Expanding(all, dist, done, q, near, cur, out, |out|)
    requires forall st | st in all && st.frm == cur :: st in out
    ensures Searching(all, dist, done + {cur}, q, Nearest(dist, q, near))
  {
    var next := Nearest(dist, q, near);
    forall i | 0 <= i < |q|
      ensures next <= dist[q[i]] <= next + 1
    {
    }
    assert Explored(all, dist, cur);
  }

  lemma NothingLeft(g: Graph, dist: map<Screen, nat>, done: set<Screen>, near: nat, start: Screen, goal: Screen)
    requires Searching(Edges(g), dist, done, [], near) && start in dist && goal !in dist
    ensures forall p :: !IsWalk(g, p, start, goal)
  {
    forall p
      ensures !IsWalk(g, p, start, goal)
    {
      if IsWalk(g, p, start, goal) { ClosedUnderWalks(g, dist, p, start, goal); }
    }
  }

  datatype Found = Found(prev: map<Screen, GraphStep>, dist: map<Screen, nat>, q: seq<Screen>)

  /** Handling the edges of `cur` from index `i` on: every unseen target is hung below `cur`
    * at distance `near + 1` and queued, stopping at the goal. */
  ghost function Expand(edges: seq<GraphStep>, i: nat, goal: Screen, near: nat, f: Found): Found
    decreases |edges| - i
  {
    if i >= |edges| then f else
    var to := edges[i].to;
    if to in f.dist then Expand(edges, i + 1, goal, near, f) else
    var prev, dist := f.prev[to := edges[i]], f.dist[to := near + 1];
    if to == goal then Found(prev, dist, f.q) else Expand(edges, i + 1, goal, near, Found(prev, dist, f.q + [to]))
  }

  /** Steps out of `cur` towards screens of the graph. */
  ghost predicate Leaving(g: Graph, start: Screen, cur: Screen, edges: seq<GraphStep>)
  {
    forall i | 0 <= i < |edges| :: edges[i].frm == cur && edges[i] in Edges(g) && edges[i].to in Screens(g, start)
  }

  lemma StepsLeave(g: Graph, start: Screen, cur: Screen)
    ensures Leaving(g, start, cur, Steps(g, cur))
    ensures forall st | st in Edges(g) && st.frm == cur :: st in Steps(g, cur)
  {
    forall i | 0 <= i < |Steps(g, cur)|
      ensures var st := Steps(g, cur)[i]; st.frm == cur && st in Edges(g) && st.to in Screens(g, start)
    {
      StepIsEdge(g, start, cur, i);
    }
    forall st | st in Edges(g) && st.frm == cur
      ensures st in Steps(g, cur)
    {
      StepsExactly(g, cur, st);
    }
  }

  lemma {:induction false} ExpandKeepsTree(all: iset<GraphStep>, screens: set<Screen>, start: Screen, goal: Screen, near: nat,
                                           cur: Screen, edges: seq<GraphStep>, i: nat, f: Found)
    requires f.dist.Keys <= screens && cur in f.dist && f.dist[cur] == near && goal !in f.dist
    requires TreeOf(all, start, f.prev, f.dist) && i <= |edges|
    requires forall k | 0 <= k < |edges| :: edges[k].frm == cur && edges[k] in all && edges[k].to in screens
    ensures var r := Expand(edges, i, goal, near, f);
            r.dist.Keys <= screens && TreeOf(all, start, r.prev, r.dist) && (goal in r.dist ==> r.dist[goal] == near + 1)
    decreases |edges| - i
  {
    if i < |edges| {
      var step := edges[i];
      var to := step.to;
      if to in f.dist {
        ExpandKeepsTree(all, screens, start, goal, near, cur, edges, i + 1, f);
      } else {
        TreeGrows(all, start, f.prev, f.dist, step);
        if to != goal {
          var f' := Found(f.prev[to := step], f.dist[to := near + 1], f.q + [to]);
          ExpandKeepsTree(all, screens, start, goal, near, cur, edges, i + 1, f');
        }
      }
    }
  }

  lemma ScreenKeepsTree(g: Graph, start: Screen, goal: Screen, near: nat, cur: Screen, f: Found)
    requires f.dist.Keys <= Screens(g, start) && cur in f.dist && f.dist[cur] == near && goal !in f.dist
    requires Tree(g, start, f.prev, f.dist)
    ensures var r := Expand(Steps(g, cur), 0, goal, near, f);
            r.dist.Keys <= Screens(g, start) && Tree(g, start, r.prev, r.dist) &&
            (goal in r.dist ==> r.dist[goal] == near + 1)
  {
    StepsLeave(g, start, cur);
    ExpandKeepsTree(Edges(g), Screens(g, start), start, goal, near, cur, Steps(g, cur), 0, f);
  }

  lemma {:induction false} ExpandKeepsFrontier(all: iset<GraphStep>, goal: Screen, done: set<Screen>, near: nat, cur: Screen,
                                               out: seq<GraphStep>, i: nat, f: Found)
    requires goal !in f.dist && Expanding(all, f.dist, done, f.q, near, cur, out, i)
    ensures var r := Expand(out, i, goal, near, f);
            goal !in r.dist ==> Expanding(all, r.dist, done, r.q, near, cur, out, |out|)
    decreases |out| - i
  {
    if i < |out| {
      var to := out[i].to;
      if to in f.dist {
        StepOver(all, f.dist, done, f.q, near, cur, out, i);
        ExpandKeepsFrontier(all, goal, done, near, cur, out, i + 1, f);
      } else if to != goal {
        Discover(all, f.dist, done, f.q, near, cur, out, i, to);
        var f' := Found(f.prev[to := out[i]], f.dist[to := near + 1], f.q + [to]);
        ExpandKeepsFrontier(all, goal, done, near, cur, out, i + 1, f');
      }
    }
  }

  /** A target already seen is at most one further than `cur`. */
  lemma StepOver(all: iset<GraphStep>, dist: map<Screen, nat>, done: set<Screen>, q: seq<Screen>, near: nat, cur: Screen,
                 out: seq<GraphStep>, i: nat)
    requires Expanding(all, dist, done, q, near, cur, out, i) && i < |out| && out[i].to in dist
    ensures Expanding(all, dist, done, q, near, cur, out, i + 1)
  {
  }

  /** One whole round: either the goal is found at the distance no walk beats, or the search goes on
    * with one more screen done. */
  lemma Round(g: Graph, start: Screen, goal: Screen, done: set<Screen>, near: nat, q: seq<Screen>, f: Found)
    requires Tree(g, start, f.prev, f.dist) && Searching(Edges(g), f.dist, done, q, near) && q != [] && f.q == q[1..]
    requires f.dist.Keys <= Screens(g, start) && goal !in f.dist
    ensures var r := Expand(Steps(g, q[0]), 0, goal, near, f);
      && Tree(g, start, r.prev, r.dist) && r.dist.Keys <= Screens(g, start)
      && q[0] in Screens(g, start) && q[0] !in done
      && (goal in r.dist ==> r.dist[goal] == near + 1 && forall p | IsWalk(g, p, start, goal) :: near + 1 <= |p|)
      && (goal !in r.dist ==> Searching(Edges(g), r.dist, done + {q[0]}, r.q, Nearest(r.dist, r.q, near)))
  {
    var cur, all := q[0], Edges(g);
    var out := Steps(g, cur);
    TakeFromQueue(all, f.dist, done, q, near, out);
    NoShorterWalk(g, f.dist, done, f.q, near, cur, out, 0, start, goal);
    ScreenKeepsTree(g, start, goal, near, cur, f);
    ExpandKeepsFrontier(all, goal, done, near, cur, out, 0, f);
    var r := Expand(out, 0, goal, near, f);
    if goal !in r.dist {
      StepsLeave(g, start, cur);
      FinishScreen(all, r.dist, done, r.q, near, cur, out);
    }
  }

  /** The inner loop of `shortest_path`. */
  method ExpandScreen(edges: seq<GraphStep>, goal: Screen, prev0: map<Screen, GraphStep>, seen0: set<Screen>,
                      q0: seq<Screen>, ghost dist0: map<Screen, nat>, ghost near: nat)
      returns (prev: map<Screen, GraphStep>, seen: set<Screen>, q: seq<Screen>, ghost dist: map<Screen, nat>)
    requires seen0 == dist0.Keys && goal !in seen0
    ensures seen == dist.Keys && Found(prev, dist, q) == Expand(edges, 0, goal, near, Found(prev0, dist0, q0))
  {
    prev, seen, q, dist := prev0, seen0, q0, dist0;
    for i := 0 to |edges|
      invariant seen == dist.Keys
      invariant Expand(edges, i, goal, near, Found(prev, dist, q)) == Expand(edges, 0, goal, near, Found(prev0, dist0, q0))
    {
      var step := edges[i];
      if step.to in seen { continue; }
      seen := seen + {step.to};
      prev := prev[step.to := step];
      dist := dist[step.to := near + 1];
      if step.to == goal { return; }
      q := q + [step.to];
    }
  }

  /** `shortest_path`: terminates on every finite graph; None exactly when no walk over
    * concrete edges leads to the goal, otherwise a walk no other one beats in length. */
  method ShortestPath(g: Graph, start: Screen, goal: Screen) returns (r: Option<seq<GraphStep>>)
    ensures r.Some? ==> IsWalk(g, r.value, start, goal)
    ensures r.Some? ==> forall p | IsWalk(g, p, start, goal) :: |r.value| <= |p|
    ensures r == None ==> forall p :: !IsWalk(g, p, start, goal)
  {
    if start == goal { return Some([]); }
    var prev: map<Screen, GraphStep> := map[];
    var seen := {start};
    var q := [start];
    ghost var dist: map<Screen, nat>, done: set<Screen>, near: nat := map[start := 0], {}, 0;
    while q != []
      invariant seen == dist.Keys && seen <= Screens(g, start) && goal !in seen
      invariant Tree(g, start, prev, dist)
      invariant Searching(Edges(g), dist, done, q, near)
      decreases Screens(g, start) - done
    {
      var cur := q[0];
      Round(g, start, goal, done, near, q, Found(prev, dist, q[1..]));
      prev, seen, q, dist := ExpandScreen(Steps(g, cur), goal, prev, seen, q[1..], dist, near);
      if goal in seen {
        var path := TracePath(g, start, goal, prev, dist);
        return Some(path);
      }
      done, near := done + {cur}, Nearest(dist, q, near);
    }
    NothingLeft(g, dist, done, near, start, goal);
    return None;
  }
}
