/** Planning over the game graph. A node is a configuration with the player
    to move; an edge is an action the mover may take, after which the other
    player moves. The search looks, breadth first, for a node whose
    configuration is the goal, and returns a shortest path as a list of
    (node, action) entries whose last entry carries no action.

    The search is written against a move generator, so that its proofs do
    not depend on the rules; GameMoves, the valid actions of the turn
    engine, is the generator of the game. */
module Search {
  import opened Board
  import opened Rules
  import opened Game

  datatype Option<T> = None | Some(value: T)

  /** A configuration and the player to move. */
  datatype Node = Node(board: seq<int>, player: int)

  /** One step of a path: a node and the action taken from it; the last
      entry of a path has no action. */
  datatype Entry = Entry(node: Node, action: Option<Action>)

  /** The answer of a search: a shortest path, the proof that no path
      exists, or the report that none exists within the depth budget. */
  datatype Answer = Found(path: seq<Entry>) | Unreachable | OutOfBudget

  predicate Wf(n: Node) {
    |n.board| == NSlots && IsPlayer(n.player)
  }

  /** The node an action of the mover leads to: the action applied, and the
      other player to move. */
  function Next(n: Node, a: Action): (m: Node)
    requires Wf(n) && 0 <= a.idx < 6
    ensures Wf(m) && m.player == 1 - n.player
  {
    Node(Apply(n.board, n.player, a), 1 - n.player)
  }

  /** The moves of the game: the valid actions of the player to move. */
  function GameMoves(n: Node): set<Action> {
    if Wf(n) then ValidActions(n.board, n.player) else {}
  }

  /** Every move a generator offers at a node names one of the mover's six
      pieces. */
  ghost predicate PieceMoves(moves: Node -> set<Action>) {
    forall n, a {:trigger a in moves(n)} :: Wf(n) && a in moves(n) ==> 0 <= a.idx < 6
  }

  lemma GameMovesArePieceMoves()
    ensures PieceMoves(GameMoves)
  {
    forall n, a | Wf(n) && a in GameMoves(n) ensures 0 <= a.idx < 6 {
    }
  }

  // ---------------------------------------------------------------------
  // Paths

  /** Entry i leads to entry i + 1: its action is a move at its node and
      yields the next node. */
  ghost predicate Linked(moves: Node -> set<Action>, p: seq<Entry>, i: int)
    requires 0 <= i < |p| - 1
  {
    var n, a := p[i].node, p[i].action;
    Wf(n) && a.Some? && a.value in moves(n) && 0 <= a.value.idx < 6 &&
    p[i + 1].node == Next(n, a.value)
  }

  /** A path from start to a node whose configuration is goal. */
  ghost predicate IsPath(moves: Node -> set<Action>, p: seq<Entry>, start: Node, goal: seq<int>) {
    |p| >= 1 && p[0].node == start &&
    p[|p| - 1].node.board == goal && p[|p| - 1].action.None? &&
    forall i {:trigger Linked(moves, p, i)} :: 0 <= i < |p| - 1 ==> Linked(moves, p, i)
  }

  /** What a search answer promises about a start node, a goal and a budget
      on the number of actions. */
  ghost predicate Solves(moves: Node -> set<Action>, r: Answer, start: Node, goal: seq<int>, budget: nat) {
    match r
    case Found(path) =>
      IsPath(moves, path, start, goal) && |path| <= budget + 1 &&
      forall p {:trigger IsPath(moves, p, start, goal)} :: IsPath(moves, p, start, goal) ==> |path| <= |p|
    case Unreachable =>
      forall p {:trigger IsPath(moves, p, start, goal)} :: !IsPath(moves, p, start, goal)
    case OutOfBudget =>
      forall p {:trigger IsPath(moves, p, start, goal)} :: IsPath(moves, p, start, goal) ==> |p| > budget + 1
  }

  // ---------------------------------------------------------------------
  // The nodes within k actions of the start

  /** The nodes one move away from a node of ns. */
  ghost function Succ(moves: Node -> set<Action>, ns: set<Node>): set<Node> {
    set n, a | n in ns && Wf(n) && a in moves(n) && 0 <= a.idx < 6 :: Next(n, a)
  }

  /** The nodes the given actions lead to from n. */
  ghost function Outs(n: Node, acts: set<Action>): set<Node>
    requires Wf(n)
  {
    set a | a in acts && 0 <= a.idx < 6 :: Next(n, a)
  }

  /** The nodes at most k moves away from start. */
  ghost function Within(moves: Node -> set<Action>, start: Node, k: nat): (w: set<Node>)
    ensures start in w
  {
    if k == 0 then {start} else Within(moves, start, k - 1) + Succ(moves, Within(moves, start, k - 1))
  }

  lemma SuccMono(moves: Node -> set<Action>, a: set<Node>, b: set<Node>)
    requires a <= b
    ensures Succ(moves, a) <= Succ(moves, b)
  {
  }

  /** The successors of a part of a closed set lie in it. */
  lemma SuccInto(moves: Node -> set<Action>, v: set<Node>, c: set<Node>)
    requires v <= c && Succ(moves, c) <= c
    ensures Succ(moves, v) <= c
  {
    SuccMono(moves, v, c);
  }

  lemma SuccUnion(moves: Node -> set<Action>, a: set<Node>, b: set<Node>)
    ensures Succ(moves, a + b) == Succ(moves, a) + Succ(moves, b)
  {
  }

  /** Adding one node to a set adds the nodes its moves lead to. */
  lemma SuccAddNode(moves: Node -> set<Action>, ns: set<Node>, n: Node)
    requires Wf(n)
    ensures Succ(moves, ns + {n}) == Succ(moves, ns) + Outs(n, moves(n))
  {
  }

  lemma OutsAdd(n: Node, done: set<Action>, a: Action)
    requires Wf(n) && 0 <= a.idx < 6
    ensures Outs(n, done + {a}) == Outs(n, done) + {Next(n, a)}
  {
  }

  lemma {:induction false} WithinMono(moves: Node -> set<Action>, start: Node, j: nat, k: nat)
    requires j <= k
    ensures Within(moves, start, j) <= Within(moves, start, k)
    decreases k
  {
    if j < k {
      WithinMono(moves, start, j, k - 1);
    }
  }

  /** The nodes within any number of moves lie in every set that holds
      the start and is closed under moves. */
  lemma {:induction false} WithinClosed(moves: Node -> set<Action>, start: Node, c: set<Node>, j: nat)
    requires start in c && Succ(moves, c) <= c
    ensures Within(moves, start, j) <= c
    decreases j
  {
    if j > 0 {
      var v := Within(moves, start, j - 1);
      WithinClosed(moves, start, c, j - 1);
      SuccInto(moves, v, c);
    }
  }

  /** The i-th node of a path is within i moves of its start. */
  lemma {:induction false} PathWithin(moves: Node -> set<Action>, p: seq<Entry>, start: Node, goal: seq<int>, i: nat)
    requires IsPath(moves, p, start, goal) && i < |p|
    ensures p[i].node in Within(moves, start, i)
    decreases i
  {
    if i > 0 {
      PathWithin(moves, p, start, goal, i - 1);
      assert Linked(moves, p, i - 1);
      var n, a := p[i - 1].node, p[i - 1].action.value;
      assert Next(n, a) in Succ(moves, Within(moves, start, i - 1));
    }
  }

  /** Every node up to k moves from start is within k moves of it. */
  lemma {:induction false} WithinUpTo(moves: Node -> set<Action>, start: Node, k: nat)
    ensures forall j :: 0 <= j <= k ==> Within(moves, start, j) <= Within(moves, start, k)
  {
    forall j | 0 <= j <= k ensures Within(moves, start, j) <= Within(moves, start, k) {
      WithinMono(moves, start, j, k);
    }
  }

  /** Every path to the goal is longer than k + 1 entries when no node
      within k moves has the goal configuration. */
  lemma NoShortPath(moves: Node -> set<Action>, start: Node, goal: seq<int>, k: nat, p: seq<Entry>)
    requires IsPath(moves, p, start, goal) && Avoids(Within(moves, start, k), goal)
    ensures |p| > k + 1
  {
    var j: nat := |p| - 1;
    WithinUpTo(moves, start, k);
    PathWithin(moves, p, start, goal, j);
  }

  /** The start alone is a shortest path when it has the goal
      configuration. */
  lemma AtGoal(moves: Node -> set<Action>, start: Node, goal: seq<int>, budget: nat)
    requires start.board == goal
    ensures Solves(moves, Found([Entry(start, None)]), start, goal, budget)
  {
  }

  /** A path of k + 2 entries is a shortest one when no node within k
      moves has the goal configuration. */
  lemma Shortest(moves: Node -> set<Action>, start: Node, goal: seq<int>, k: nat, budget: nat, path: seq<Entry>)
    requires IsPath(moves, path, start, goal) && |path| == k + 2 && k < budget
    requires Avoids(Within(moves, start, k), goal)
    ensures Solves(moves, Found(path), start, goal, budget)
  {
    forall p | IsPath(moves, p, start, goal) ensures |path| <= |p| {
      NoShortPath(moves, start, goal, k, p);
    }
  }

  /** No path reaches the goal once the nodes within k moves are closed
      under moves and none has the goal configuration. */
  lemma NoPath(moves: Node -> set<Action>, start: Node, goal: seq<int>, k: nat, budget: nat)
    requires Within(moves, start, k + 1) == Within(moves, start, k)
    requires Avoids(Within(moves, start, k), goal)
    ensures Solves(moves, Unreachable, start, goal, budget)
  {
    var w := Within(moves, start, k);
    assert Succ(moves, w) <= w by {
      assert Within(moves, start, k + 1) == w + Succ(moves, w);
    }
    forall p | IsPath(moves, p, start, goal) ensures false {
      var j: nat := |p| - 1;
      WithinClosed(moves, start, w, j);
      PathWithin(moves, p, start, goal, j);
    }
  }

  /** Every path to the goal has more than budget moves when no node
      within budget moves has the goal configuration. */
  lemma BeyondBudget(moves: Node -> set<Action>, start: Node, goal: seq<int>, budget: nat)
    requires Avoids(Within(moves, start, budget), goal)
    ensures Solves(moves, OutOfBudget, start, goal, budget)
  {
    forall p | IsPath(moves, p, start, goal) ensures |p| > budget + 1 {
      NoShortPath(moves, start, goal, budget, p);
    }
  }

  /** A path to n extends by one move at n. */
  lemma PathExtend(moves: Node -> set<Action>, q: seq<Entry>, start: Node, n: Node, a: Action)
    requires Wf(n) && a in moves(n) && 0 <= a.idx < 6
    requires IsPath(moves, q + [Entry(n, None)], start, n.board)
    ensures IsPath(moves, q + [Entry(n, Some(a)), Entry(Next(n, a), None)], start, Next(n, a).board)
  {
    var p := q + [Entry(n, None)];
    var p' := q + [Entry(n, Some(a)), Entry(Next(n, a), None)];
    forall i | 0 <= i < |p'| - 1 ensures Linked(moves, p', i) {
      if i < |q| {
        assert Linked(moves, p, i);
        assert p'[i] == p[i] && p'[i + 1].node == p[i + 1].node;
      }
    }
  }

  /** The nodes first reached after exactly k moves: the layer k of a
      breadth-first search from start. */
  ghost function Frontier(moves: Node -> set<Action>, start: Node, k: nat): set<Node> {
    if k == 0 then {start}
    else Succ(moves, Frontier(moves, start, k - 1)) - Within(moves, start, k - 1)
  }

  /** Layer k lies within k moves, and only layer k has successors beyond
      the nodes within k moves. */
  lemma {:induction false} Closed(moves: Node -> set<Action>, start: Node, k: nat)
    ensures Frontier(moves, start, k) <= Within(moves, start, k)
    ensures Succ(moves, Within(moves, start, k)) <= Within(moves, start, k) + Succ(moves, Frontier(moves, start, k))
  {
    if k > 0 {
      Closed(moves, start, k - 1);
      var w0, f0 := Within(moves, start, k - 1), Frontier(moves, start, k - 1);
      var w, f := Within(moves, start, k), Frontier(moves, start, k);
      assert w == w0 + Succ(moves, w0);
      assert f == Succ(moves, f0) - w0;
      SuccMono(moves, f0, w0);
      Regroup(w0, Succ(moves, w0), Succ(moves, f0), w, f);
      SuccUnion(moves, w0, f);
      UnionWithin(Succ(moves, w0), Succ(moves, f), w0 + Succ(moves, f0), w + Succ(moves, f));
    }
  }

  /** The set algebra of one layer: the new layer c - a added to a gives
      a + b, when b lies between c and a + c. */
  lemma Regroup<T>(a: set<T>, b: set<T>, c: set<T>, w: set<T>, f: set<T>)
    requires c <= b <= a + c && w == a + b && f == c - a
    ensures f <= w && w == a + f && c <= w
  {
  }

  /** The nodes within k + 1 moves are those within k moves and layer
      k + 1. */
  lemma LayerStep(moves: Node -> set<Action>, start: Node, k: nat)
    ensures Frontier(moves, start, k) <= Within(moves, start, k)
    ensures Within(moves, start, k + 1) == Within(moves, start, k) + Frontier(moves, start, k + 1)
  {
    var w, f := Within(moves, start, k), Frontier(moves, start, k);
    Closed(moves, start, k);
    SuccMono(moves, f, w);
    Absorb(w, Succ(moves, w), Succ(moves, f));
  }

  /** A union stays within a set that holds both parts. */
  lemma UnionWithin<T>(a: set<T>, b: set<T>, c: set<T>, d: set<T>)
    requires a <= c && b <= d
    ensures a + b <= c + d
  {
  }

  /** Adding b to a adds the part of c outside a, when b lies between c
      and a + c. */
  lemma Absorb<T>(a: set<T>, b: set<T>, c: set<T>)
    requires c <= b <= a + c
    ensures a + b == a + (c - a)
  {
  }

  // ---------------------------------------------------------------------
  // The search

  /** Every node of a layer has a well-formed configuration other than the
      goal, and maps to the first len entries of a path leading to it. */
  ghost predicate Leads(moves: Node -> set<Action>, start: Node, goal: seq<int>,
                        layer: map<Node, seq<Entry>>, len: nat) {
    forall m {:trigger layer[m]} :: m in layer ==>
      Wf(m) && m.board != goal && |layer[m]| == len &&
      IsPath(moves, layer[m] + [Entry(m, None)], start, m.board)
  }

  /** No node of ns has the goal configuration. */
  ghost predicate Avoids(ns: set<Node>, goal: seq<int>) {
    forall n :: n in ns ==> n.board != goal
  }

  /** Breadth-first search from start for a node with configuration goal,
      exploring at most budget layers of moves. Each frontier node keeps
      the entries of a shortest path leading to it. */
  method Solve(moves: Node -> set<Action>, start: Node, goal: seq<int>, budget: nat) returns (r: Answer)
    requires PieceMoves(moves) && Wf(start)
    ensures Solves(moves, r, start, goal, budget)
    ensures start.board == goal ==> r == Found([Entry(start, None)])
  {
    if start.board == goal {
      AtGoal(moves, start, goal, budget);
      return Found([Entry(start, None)]);
    }
    var visited: set<Node> := {start};
    var frontier: map<Node, seq<Entry>> := map[start := []];
    var k := 0;
    while k < budget
      invariant 0 <= k <= budget
      invariant visited == Within(moves, start, k)
      invariant frontier.Keys == Frontier(moves, start, k)
      invariant Avoids(visited, goal)
      invariant Leads(moves, start, goal, frontier, k)
    {
      var next := Expand(moves, start, goal, visited, frontier, k);
      if next.Goal? {
        Shortest(moves, start, goal, k, budget, next.path);
        return Found(next.path);
      }
      var layer := next.layer;
      LayerStep(moves, start, k);
      if layer == map[] {
        NoPath(moves, start, goal, k, budget);
        return Unreachable;
      }
      visited := visited + layer.Keys;
      frontier := layer;
      k := k + 1;
    }
    BeyondBudget(moves, start, goal, budget);
    return OutOfBudget;
  }

  /** The planner of the game: breadth-first search over the valid actions
      of the turn engine. */
  method Plan(start: Node, goal: seq<int>, budget: nat) returns (r: Answer)
    requires Wf(start)
    ensures Solves(GameMoves, r, start, goal, budget)
    ensures start.board == goal ==> r == Found([Entry(start, None)])
  {
    GameMovesArePieceMoves();
    r := Solve(GameMoves, start, goal, budget);
  }

  /** The result of expanding a layer: a path to the goal, or the next
      layer with the entries of a path to each of its nodes. */
  datatype Expansion =
    | Goal(path: seq<Entry>)
    | Layer(layer: map<Node, seq<Entry>>)

  /** Expands every frontier node by every move at it. Nodes already
      visited are skipped; the first new node with the goal configuration
      ends the search. */
  method Expand(moves: Node -> set<Action>, start: Node, goal: seq<int>, visited: set<Node>,
                frontier: map<Node, seq<Entry>>, k: nat) returns (x: Expansion)
    requires PieceMoves(moves) && visited == Within(moves, start, k)
    requires frontier.Keys == Frontier(moves, start, k) && Avoids(visited, goal)
    requires Leads(moves, start, goal, frontier, k)
    ensures x.Goal? ==> IsPath(moves, x.path, start, goal) && |x.path| == k + 2
    ensures x.Layer? ==> x.layer.Keys == Frontier(moves, start, k + 1)
    ensures x.Layer? ==> Leads(moves, start, goal, x.layer, k + 1)
  {
    var next: map<Node, seq<Entry>> := map[];
    var todo := frontier.Keys;
    while todo != {}
      invariant todo <= frontier.Keys
      invariant next.Keys == Succ(moves, frontier.Keys - todo) - visited
      invariant Leads(moves, start, goal, next, k + 1)
      decreases todo
    {
      var n :| n in todo;
      ghost var seen := frontier.Keys - todo;
      assert Wf(n) && IsPath(moves, frontier[n] + [Entry(n, None)], start, n.board) && |frontier[n]| == k;
      var y := ExpandNode(moves, start, goal, visited, n, frontier[n], next, Succ(moves, seen));
      if y.Goal? {
        return y;
      }
      SuccAddNode(moves, seen, n);
      assert frontier.Keys - (todo - {n}) == seen + {n};
      next := y.layer;
      todo := todo - {n};
    }
    return Layer(next);
  }

  /** Expands one frontier node n, reached by the entries q, by every move
      at it, adding the new nodes to the layer built so far. */
  method ExpandNode(moves: Node -> set<Action>, start: Node, goal: seq<int>, visited: set<Node>,
                    n: Node, q: seq<Entry>, next: map<Node, seq<Entry>>, ghost reached: set<Node>)
      returns (x: Expansion)
    requires PieceMoves(moves) && Wf(n) && Avoids(visited, goal)
    requires IsPath(moves, q + [Entry(n, None)], start, n.board)
    requires next.Keys == reached - visited && Leads(moves, start, goal, next, |q| + 1)
    ensures x.Goal? ==> IsPath(moves, x.path, start, goal) && |x.path| == |q| + 2
    ensures x.Layer? ==> x.layer.Keys == (reached + Outs(n, moves(n))) - visited
    ensures x.Layer? ==> Leads(moves, start, goal, x.layer, |q| + 1)
  {
    var layer := next;
    var acts := moves(n);
    ghost var done: set<Action> := {};
    while acts != {}
      invariant acts + done == moves(n) && acts !! done
      invariant layer.Keys == (reached + Outs(n, done)) - visited
      invariant Leads(moves, start, goal, layer, |q| + 1)
      decreases acts
    {
      var a :| a in acts;
      var m := Next(n, a);
      OutsAdd(n, done, a);
      if m !in visited && m !in layer {
        var path := q + [Entry(n, Some(a))];
        PathExtend(moves, q, start, n, a);
        assert path + [Entry(m, None)] == q + [Entry(n, Some(a)), Entry(m, None)];
        if m.board == goal {
          return Goal(path + [Entry(m, None)]);
        }
        layer := layer[m := path];
      }
      acts := acts - {a};
      done := done + {a};
    }
    return Layer(layer);
  }

  /** An answer to a search that has a path within the budget is a
      shortest path. */
  lemma Answered(moves: Node -> set<Action>, r: Answer, start: Node, goal: seq<int>, budget: nat, w: seq<Entry>)
    requires Solves(moves, r, start, goal, budget)
    requires IsPath(moves, w, start, goal) && |w| <= budget + 1
    ensures r.Found? && IsPath(moves, r.path, start, goal) && |r.path| <= |w|
  {
  }

  /** Along a path the players alternate, starting with the start's. */
  lemma {:induction false} PathPlayers(moves: Node -> set<Action>, p: seq<Entry>, start: Node, goal: seq<int>, i: nat)
    requires IsPath(moves, p, start, goal) && IsPlayer(start.player) && i < |p|
    ensures p[i].node.player == if i % 2 == 0 then start.player else 1 - start.player
  {
    if i > 0 {
      PathPlayers(moves, p, start, goal, i - 1);
      assert Linked(moves, p, i - 1);
    }
  }

  // ---------------------------------------------------------------------
  // The planning fixtures of test_search.py, over the game's moves

  /** What one link of a path over the game's moves says: the player to
      move rewrites one of its own pieces to a new cell and hands the turn
      over; a blocker moves by a knight step onto the board. */
  lemma GameStep(p: seq<Entry>, start: Node, goal: seq<int>, i: int)
    requires IsPath(GameMoves, p, start, goal) && 0 <= i < |p| - 1
    ensures p[i].action.Some?
    ensures var n, a := p[i].node, p[i].action.value;
      Wf(n) && 0 <= a.idx < 6 &&
      a.pos != n.board[SlotOf(n.player, a.idx)] &&
      p[i + 1].node == Node(n.board[SlotOf(n.player, a.idx) := a.pos], 1 - n.player) &&
      (a.idx < 5 ==> 0 <= a.pos < NCells && KnightStep(Decode(n.board[SlotOf(n.player, a.idx)]), Decode(a.pos)))
  {
    assert Linked(GameMoves, p, i);
    var n, a := p[i].node, p[i].action.value;
    ValidActionsIff(n.board, n.player, a);
  }

  /** The first move of a path from the opening that moves white's first
      blocker takes it to (3, 1), (0, 2) or (2, 2). */
  lemma OpeningFirstStep(p: seq<Entry>, goal: seq<int>)
    requires IsPath(GameMoves, p, Node(Opening, 0), goal) && |p| >= 2
    ensures p[0].action.Some? && (p[0].action.value.idx == 0 ==> p[0].action.value.pos in {10, 14, 16})
  {
    assert Linked(GameMoves, p, 0);
    var a := p[0].action.value;
    if a.idx == 0 {
      ValidActionsIff(Opening, 0, a);
      SinglePieceActionsIff(Opening, 0, a.pos);
      OpeningKnightMoves();
    }
  }

  /** A blocker's legal knight move links two entries of a path. */
  lemma KnightLink(p: seq<Entry>, i: int)
    requires 0 <= i < |p| - 1 && Wf(p[i].node) && p[i].action.Some?
    requires var n, a := p[i].node, p[i].action.value;
      0 <= a.idx < 5 && LegalKnightMove(n.board, SlotOf(n.player, a.idx), a.pos) &&
      p[i + 1].node == Node(n.board[SlotOf(n.player, a.idx) := a.pos], 1 - n.player)
    ensures Linked(GameMoves, p, i)
  {
    var n, a := p[i].node, p[i].action.value;
    ValidActionsIff(n.board, n.player, a);
  }

  /** Searching from the opening for the opening itself answers with the
      start alone. */
  lemma GoalAtStartFixture(r: Answer, budget: nat)
    requires Solves(GameMoves, r, Node(Opening, 0), Opening, budget)
    ensures r == Found([Entry(Node(Opening, 0), None)])
  {
    var w := [Entry(Node(Opening, 0), None)];
    assert IsPath(GameMoves, w, Node(Opening, 0), Opening);
    Answered(GameMoves, r, Node(Opening, 0), Opening, budget, w);
  }

  /** The one-move path of the planning test: white's first blocker from
      (1, 0) to (0, 2). */
  lemma OneMovePath()
    ensures IsPath(GameMoves, [Entry(Node(Opening, 0), Some(Action(0, 14))), Entry(Node(Opening[0 := 14], 1), None)],
                   Node(Opening, 0), Opening[0 := 14])
  {
    var w := [Entry(Node(Opening, 0), Some(Action(0, 14))), Entry(Node(Opening[0 := 14], 1), None)];
    assert Decode(1) == Cell(1, 0) && Decode(14) == Cell(0, 2);
    KnightLink(w, 0);
  }

  /** Moving white's first blocker from (1, 0) to (0, 2) takes one move,
      and the search answers with exactly that move. */
  lemma OneMoveFixture(r: Answer, budget: nat)
    requires Solves(GameMoves, r, Node(Opening, 0), Opening[0 := 14], budget) && budget >= 1
    ensures r == Found([Entry(Node(Opening, 0), Some(Action(0, 14))), Entry(Node(Opening[0 := 14], 1), None)])
  {
    var goal := Opening[0 := 14];
    OneMovePath();
    Answered(GameMoves, r, Node(Opening, 0), goal, budget,
      [Entry(Node(Opening, 0), Some(Action(0, 14))), Entry(Node(goal, 1), None)]);
    var path := r.path;
    assert path[0].node.board[0] == 1 && goal[0] == 14;
    GameStep(path, Node(Opening, 0), goal, 0);
    var a := path[0].action.value;
    assert Opening[a.idx := a.pos][0] == goal[0];
  }

  /** The goal of the two-move fixture: white's first blocker on (2, 3). */
  const Moved: seq<int> := Opening[0 := 23]

  /** The move-away-and-back path of the planning test: white's first
      blocker goes from (1, 0) to (2, 3) through (0, 2) while black's first
      blocker steps out to (2, 5) and back. */
  const Detour: seq<Entry> :=
    [Entry(Node(Opening, 0), Some(Action(0, 14))),
     Entry(Node(Opening[0 := 14], 1), Some(Action(0, 37))),
     Entry(Node(Opening[0 := 14][6 := 37], 0), Some(Action(0, 23))),
     Entry(Node(Opening[0 := 23][6 := 37], 1), Some(Action(0, 50))),
     Entry(Node(Moved, 0), None)]

  lemma DetourWhiteLinks()
    ensures |Detour| == 5 && Linked(GameMoves, Detour, 0) && Linked(GameMoves, Detour, 2)
  {
    assert Decode(1) == Cell(1, 0) && Decode(14) == Cell(0, 2) && Decode(23) == Cell(2, 3);
    KnightLink(Detour, 0);
    assert Opening[0 := 14][6 := 37][0 := 23] == Opening[0 := 23][6 := 37];
    KnightLink(Detour, 2);
  }

  lemma DetourBlackLinks()
    ensures |Detour| == 5 && Linked(GameMoves, Detour, 1) && Linked(GameMoves, Detour, 3)
  {
    assert Decode(50) == Cell(1, 7) && Decode(37) == Cell(2, 5);
    KnightLink(Detour, 1);
    assert Opening[0 := 23][6 := 37][6 := 50] == Moved;
    KnightLink(Detour, 3);
  }

  lemma DetourPath()
    ensures IsPath(GameMoves, Detour, Node(Opening, 0), Moved)
  {
    DetourWhiteLinks();
    DetourBlackLinks();
  }

  /** No path from the opening of fewer than four moves ends on Moved:
      white needs two moves of its first blocker, and a single black move
      cannot be undone. */
  lemma ShortPathsMiss(p: seq<Entry>)
    requires |p| >= 1 && IsPath(GameMoves, p, Node(Opening, 0), p[|p| - 1].node.board) && |p| <= 4
    ensures p[|p| - 1].node.board != Moved
  {
    var start, last := Node(Opening, 0), p[|p| - 1].node.board;
    assert Moved[0] == 23;
    if |p| == 1 {
      assert p[0].node.board[0] == 1;
    } else if |p| == 2 {
      GameStep(p, start, last, 0);
      var a := p[0].action.value;
      assert last[0] == if a.idx == 0 then a.pos else 1;
      assert Decode(1) == Cell(1, 0) && Decode(23) == Cell(2, 3);
    } else {
      GameStep(p, start, last, 0);
      GameStep(p, start, last, 1);
      var b := p[1].action.value;
      assert p[1].node.board[6 + b.idx] == Opening[6 + b.idx] == Moved[6 + b.idx];
      if |p| == 4 {
        GameStep(p, start, last, 2);
        assert last[6 + b.idx] == p[2].node.board[6 + b.idx];
      }
    }
  }

  lemma DetourLowerBound(p: seq<Entry>)
    requires IsPath(GameMoves, p, Node(Opening, 0), Moved)
    ensures |p| >= 5
  {
    if |p| <= 4 {
      ShortPathsMiss(p);
    }
  }

  /** Moving white's first blocker from (1, 0) to (2, 3) takes four
      moves: the blocker goes through (0, 2) or (3, 1), and black moves a
      piece away and back in between. */
  lemma DetourFixture(r: Answer, budget: nat)
    requires Solves(GameMoves, r, Node(Opening, 0), Moved, budget) && budget >= 4
    ensures r.Found? && |r.path| == 5
    ensures r.path[0].action == Some(Action(0, 14)) || r.path[0].action == Some(Action(0, 10))
    ensures r.path[1].node.player == 1
    ensures r.path[2].action == Some(Action(0, 23))
    ensures r.path[4] == Entry(Node(Moved, 0), None)
  {
    var start := Node(Opening, 0);
    DetourPath();
    Answered(GameMoves, r, start, Moved, budget, Detour);
    DetourLowerBound(r.path);
    DetourShape(r.path);
  }

  /** A four-move path from the opening to Moved first moves white's first
      blocker to (0, 2) or (3, 1), then to (2, 3) on white's second move. */
  lemma DetourShape(p: seq<Entry>)
    requires IsPath(GameMoves, p, Node(Opening, 0), Moved) && |p| == 5
    ensures p[0].action == Some(Action(0, 14)) || p[0].action == Some(Action(0, 10))
    ensures p[1].node.player == 1
    ensures p[2].action == Some(Action(0, 23))
    ensures p[4] == Entry(Node(Moved, 0), None)
  {
    var start := Node(Opening, 0);
    PathPlayers(GameMoves, p, start, Moved, 1);
    PathPlayers(GameMoves, p, start, Moved, 4);
    assert p[0].action.Some? && p[2].action.Some? && DetourMoves(p[0].action.value, p[2].action.value) by {
      OpeningFirstStep(p, Moved);
      GameStep(p, start, Moved, 0);
      GameStep(p, start, Moved, 1);
      GameStep(p, start, Moved, 2);
      GameStep(p, start, Moved, 3);
      DetourWhiteMoves(p[0].action.value, p[1].action.value, p[2].action.value, p[3].action.value);
    }
  }

  /** The white moves of the two-move fixture's shortest paths. */
  predicate DetourMoves(a0: Action, a2: Action) {
    (a0 == Action(0, 14) || a0 == Action(0, 10)) && a2 == Action(0, 23)
  }

  /** The white moves of a four-move path from the opening to Moved: the
      first moves white's first blocker to (3, 1), (0, 2) or (2, 2), every
      blocker move is a knight step onto the board, and each move changes
      the mover's piece. */
  lemma DetourWhiteMoves(a0: Action, a1: Action, a2: Action, a3: Action)
    requires 0 <= a0.idx < 6 && 0 <= a1.idx < 6 && 0 <= a2.idx < 6 && 0 <= a3.idx < 6
    requires a0.idx == 0 ==> a0.pos in {10, 14, 16}
    requires var b2 := Opening[a0.idx := a0.pos][6 + a1.idx := a1.pos];
      (a2.idx < 5 ==> KnightStep(Decode(b2[a2.idx]), Decode(a2.pos))) &&
      b2[a2.idx := a2.pos][6 + a3.idx := a3.pos] == Moved
    ensures DetourMoves(a0, a2)
  {
    var b2 := Opening[a0.idx := a0.pos][6 + a1.idx := a1.pos];
    var b4 := b2[a2.idx := a2.pos][6 + a3.idx := a3.pos];
    assert b2[0] == if a0.idx == 0 then a0.pos else 1;
    assert b4[0] == 23;
    assert Decode(1) == Cell(1, 0) && Decode(23) == Cell(2, 3) && Decode(16) == Cell(2, 2);
  }
}
