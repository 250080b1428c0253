/** Legal destinations for one piece: knight moves for a blocker, and a
    chain of clear straight or diagonal passes between teammates for the
    ball. */
module Rules {
  import opened Board

  function Abs(x: int): nat {
    if x < 0 then -x else x
  }

  // ---------------------------------------------------------------------
  // Blockers

  /** The eight knight offsets (column delta, row delta). */
  const KnightOffsets: seq<(int, int)> :=
    [(1, 2), (2, 1), (2, -1), (1, -2), (-1, -2), (-2, -1), (-2, 1), (-1, 2)]

  function Shift(c: Cell, o: (int, int)): Cell {
    Cell(c.col + o.0, c.row + o.1)
  }

  /** b is one knight move away from a. */
  predicate KnightStep(a: Cell, b: Cell) {
    var dc, dr := Abs(b.col - a.col), Abs(b.row - a.row);
    (dc == 1 && dr == 2) || (dc == 2 && dr == 1)
  }

  /** The blocker in slot idx holds its own team's ball. */
  predicate HoldsBall(s: seq<int>, idx: int)
    requires |s| == NSlots && IsBlockerSlot(idx)
  {
    s[idx] == s[BallSlot(Owner(idx))]
  }

  /** No slot other than idx holds d. */
  predicate FreeFor(s: seq<int>, idx: int, d: int) {
    forall j :: 0 <= j < |s| && j != idx ==> s[j] != d
  }

  /** The knight target of slot idx along offset k, if any. */
  function Target(s: seq<int>, idx: int, k: int): Cell
    requires |s| == NSlots && 0 <= idx < NSlots && 0 <= k < |KnightOffsets|
  {
    Shift(Decode(s[idx]), KnightOffsets[k])
  }

  /** The destinations of the blocker in slot idx: the on-board knight
      targets that no other piece occupies. A blocker holding its team's
      ball does not move (moving it would leave the ball unheld). */
  function SinglePieceActions(s: seq<int>, idx: int): (r: set<int>)
    requires |s| == NSlots && IsBlockerSlot(idx)
    ensures forall d :: d in r ==> 0 <= d < NCells && d != s[idx]
  {
    if HoldsBall(s, idx) then {}
    else
      set k | 0 <= k < |KnightOffsets| && OnBoard(Target(s, idx, k)) && FreeFor(s, idx, Encode(Target(s, idx, k)))
        :: Encode(Target(s, idx, k))
  }

  /** The legal blocker move, stated without the offset table. */
  predicate LegalKnightMove(s: seq<int>, idx: int, d: int)
    requires |s| == NSlots && IsBlockerSlot(idx)
  {
    !HoldsBall(s, idx) && 0 <= d < NCells && KnightStep(Decode(s[idx]), Decode(d)) && FreeFor(s, idx, d)
  }

  lemma OffsetIsKnightStep(a: Cell, k: int)
    requires 0 <= k < |KnightOffsets|
    ensures KnightStep(a, Shift(a, KnightOffsets[k]))
  {
  }

  /** Every knight step from a is one of the eight offsets. */
  lemma KnightStepHasOffset(a: Cell, b: Cell) returns (k: int)
    requires KnightStep(a, b)
    ensures 0 <= k < |KnightOffsets| && Shift(a, KnightOffsets[k]) == b
  {
    var dc, dr := b.col - a.col, b.row - a.row;
    k := if dc == 1 && dr == 2 then 0
    else if dc == 2 && dr == 1 then 1
    else if dc == 2 && dr == -1 then 2
    else if dc == 1 && dr == -2 then 3
    else if dc == -1 && dr == -2 then 4
    else if dc == -2 && dr == -1 then 5
    else if dc == -2 && dr == 1 then 6
    else 7;
  }

  /** A destination is generated iff it is an on-board, unoccupied knight
      step away and the blocker does not hold the ball. */
  lemma SinglePieceActionsIff(s: seq<int>, idx: int, d: int)
    requires |s| == NSlots && IsBlockerSlot(idx)
    ensures d in SinglePieceActions(s, idx) <==> LegalKnightMove(s, idx, d)
  {
    if d in SinglePieceActions(s, idx) {
      var k :| 0 <= k < |KnightOffsets| && OnBoard(Target(s, idx, k)) && FreeFor(s, idx, Encode(Target(s, idx, k)))
        && d == Encode(Target(s, idx, k));
      DecodeEncode(Target(s, idx, k));
      OffsetIsKnightStep(Decode(s[idx]), k);
    }
    if LegalKnightMove(s, idx, d) {
      var k := KnightStepHasOffset(Decode(s[idx]), Decode(d));
      assert Target(s, idx, k) == Decode(d);
    }
  }

  /** Moving the blocker that holds the ball to any other cell leaves that
      ball unheld, so a board that was valid becomes invalid. */
  lemma HolderMoveInvalidates(s: seq<int>, idx: int, d: int)
    requires |s| == NSlots && IsBlockerSlot(idx) && IsValid(s)
    requires HoldsBall(s, idx) && d != s[idx]
    ensures !IsValid(s[idx := d])
  {
    var t := s[idx := d];
    var player := Owner(idx);
    forall i | 0 <= i < 5 ensures t[SlotOf(player, i)] != t[BallSlot(player)] {
      var j := SlotOf(player, i);
      if j != idx {
        assert IsBlockerSlot(j) && s[j] != s[idx] by {
          if j < idx { assert Apart(s, j, idx); } else { assert Apart(s, idx, j); }
        }
      }
    }
    UnheldBallInvalid(t, player);
  }

  // ---------------------------------------------------------------------
  // The ball

  /** The cells of the player's five blockers. */
  function TeamCells(s: seq<int>, player: int): set<int>
    requires |s| == NSlots && IsPlayer(player)
  {
    set i | 0 <= i < 5 :: s[SlotOf(player, i)]
  }

  function BallPos(s: seq<int>, player: int): int
    requires |s| == NSlots && IsPlayer(player)
  {
    s[BallSlot(player)]
  }

  /** Distinct cells on one row, one column or one true diagonal. */
  predicate Aligned(a: Cell, b: Cell) {
    a != b && (a.col == b.col || a.row == b.row || Abs(b.col - a.col) == Abs(b.row - a.row))
  }

  /** Number of unit steps from a to b along their line. */
  function Span(a: Cell, b: Cell): nat {
    var dc, dr := Abs(b.col - a.col), Abs(b.row - a.row);
    if dc < dr then dr else dc
  }

  /** Moves x by k unit steps from u towards v (in one coordinate). */
  function Toward(u: int, v: int, k: int): int {
    if u < v then u + k else if u > v then u - k else u
  }

  /** The k-th cell from a on the line towards b. */
  function Between(a: Cell, b: Cell, k: int): Cell {
    Cell(Toward(a.col, b.col, k), Toward(a.row, b.row, k))
  }

  /** Some piece (of either side) stands on cell c. */
  predicate Occupied(s: seq<int>, c: Cell) {
    exists j :: 0 <= j < |s| && Decode(s[j]) == c
  }

  /** Every cell strictly between a and b is empty. */
  predicate LineClear(s: seq<int>, a: Cell, b: Cell) {
    forall k :: 0 < k < Span(a, b) ==> !Occupied(s, Between(a, b, k))
  }

  /** A direct pass from cell a to the teammate on cell b. */
  predicate Hop(s: seq<int>, player: int, a: int, b: int)
    requires |s| == NSlots && IsPlayer(player)
  {
    b in TeamCells(s, player) && Aligned(Decode(a), Decode(b)) && LineClear(s, Decode(a), Decode(b))
  }

  /** A sequence of consecutive direct passes. */
  ghost predicate IsChain(s: seq<int>, player: int, path: seq<int>)
    requires |s| == NSlots && IsPlayer(player)
  {
    |path| >= 1 && forall i :: 0 <= i < |path| - 1 ==> Hop(s, player, path[i], path[i + 1])
  }

  /** The ball can travel to b by zero or more passes this turn. */
  ghost predicate Reachable(s: seq<int>, player: int, b: int)
    requires |s| == NSlots && IsPlayer(player)
  {
    exists path :: IsChain(s, player, path) && path[0] == BallPos(s, player) && path[|path| - 1] == b
  }

  /** The reachable cells, as a finite set: none lies outside the ball's
      cell and the teammates' cells. */
  ghost function ReachSet(s: seq<int>, player: int): set<int>
    requires |s| == NSlots && IsPlayer(player)
  {
    set b | b in TeamCells(s, player) + {BallPos(s, player)} && Reachable(s, player, b)
  }

  /** No direct pass leaves the set c. */
  ghost predicate ClosedUnderHops(s: seq<int>, player: int, c: set<int>)
    requires |s| == NSlots && IsPlayer(player)
  {
    forall a, b :: a in c && Hop(s, player, a, b) ==> b in c
  }

  lemma ReachStart(s: seq<int>, player: int)
    requires |s| == NSlots && IsPlayer(player)
    ensures Reachable(s, player, BallPos(s, player))
  {
    assert IsChain(s, player, [BallPos(s, player)]);
  }

  lemma ReachExtend(s: seq<int>, player: int, a: int, b: int)
    requires |s| == NSlots && IsPlayer(player)
    requires Reachable(s, player, a) && Hop(s, player, a, b)
    ensures Reachable(s, player, b)
  {
    var path :| IsChain(s, player, path) && path[0] == BallPos(s, player) && path[|path| - 1] == a;
    var longer := path + [b];
    forall i | 0 <= i < |longer| - 1 ensures Hop(s, player, longer[i], longer[i + 1]) {
      if i < |path| - 1 {
        assert longer[i] == path[i] && longer[i + 1] == path[i + 1];
      }
    }
    assert IsChain(s, player, longer);
  }

  /** A chain that starts in a hop-closed set stays in it. */
  lemma {:induction false} ChainStaysIn(s: seq<int>, player: int, path: seq<int>, c: set<int>)
    requires |s| == NSlots && IsPlayer(player)
    requires IsChain(s, player, path) && path[0] in c && ClosedUnderHops(s, player, c)
    ensures path[|path| - 1] in c
    decreases |path|
  {
    if |path| > 1 {
      var front := path[..|path| - 1];
      assert IsChain(s, player, front) by {
        forall i | 0 <= i < |front| - 1 ensures Hop(s, player, front[i], front[i + 1]) {
          assert front[i] == path[i] && front[i + 1] == path[i + 1];
        }
      }
      ChainStaysIn(s, player, front, c);
      assert Hop(s, player, path[|path| - 2], path[|path| - 1]);
    }
  }

  /** Every cell reachable from the ball lies in any hop-closed set holding
      the ball's cell. */
  lemma ReachableInClosed(s: seq<int>, player: int, c: set<int>, b: int)
    requires |s| == NSlots && IsPlayer(player)
    requires BallPos(s, player) in c && ClosedUnderHops(s, player, c)
    requires Reachable(s, player, b)
    ensures b in c
  {
    var path :| IsChain(s, player, path) && path[0] == BallPos(s, player) && path[|path| - 1] == b;
    ChainStaysIn(s, player, path, c);
  }

  /** The ball only ever reaches its start cell or a teammate. */
  lemma ReachableIsTeammate(s: seq<int>, player: int, b: int)
    requires |s| == NSlots && IsPlayer(player)
    requires Reachable(s, player, b)
    ensures b == BallPos(s, player) || b in TeamCells(s, player)
  {
    ReachableInClosed(s, player, TeamCells(s, player) + {BallPos(s, player)}, b);
  }

  // ---------------------------------------------------------------------
  // The closure as a function, for the queries that cannot call a method

  /** v and every teammate one direct pass from a cell of v. */
  function Grow(s: seq<int>, player: int, v: set<int>): (g: set<int>)
    requires |s| == NSlots && IsPlayer(player)
  {
    v + (set a, b | a in v && b in TeamCells(s, player) && Hop(s, player, a, b) :: b)
  }

  /** The least superset of v closed under direct passes. */
  function Closure(s: seq<int>, player: int, v: set<int>): (c: set<int>)
    requires |s| == NSlots && IsPlayer(player)
    decreases TeamCells(s, player) - v
  {
    var g := Grow(s, player, v);
    if g == v then v else Closure(s, player, g)
  }

  /** The closure contains v, adds only teammates, is hop-closed, and every
      cell in it is reachable whenever every cell of v is. */
  lemma {:induction false} ClosureFacts(s: seq<int>, player: int, v: set<int>)
    requires |s| == NSlots && IsPlayer(player)
    ensures v <= Closure(s, player, v) <= v + TeamCells(s, player)
    ensures ClosedUnderHops(s, player, Closure(s, player, v))
    ensures (forall y :: y in v ==> Reachable(s, player, y)) ==>
              forall x :: x in Closure(s, player, v) ==> Reachable(s, player, x)
    decreases TeamCells(s, player) - v
  {
    var g := Grow(s, player, v);
    if g == v {
      forall a, b | a in v && Hop(s, player, a, b) ensures b in v {
        assert b in g;
      }
    } else {
      ClosureFacts(s, player, g);
      if forall y :: y in v ==> Reachable(s, player, y) {
        forall x | x in g ensures Reachable(s, player, x) {
          if x !in v {
            var a :| a in v && x in TeamCells(s, player) && Hop(s, player, a, x);
            ReachExtend(s, player, a, x);
          }
        }
      }
    }
  }

  /** The cells the player's ball can be passed to this turn. */
  function BallActions(s: seq<int>, player: int): (r: set<int>)
    requires |s| == NSlots && IsPlayer(player)
  {
    Closure(s, player, {BallPos(s, player)}) - {BallPos(s, player)}
  }

  /** The ball's destinations are exactly the cells other than its own that
      a chain of clear passes reaches; all of them are teammates' cells. */
  lemma BallActionsIff(s: seq<int>, player: int, b: int)
    requires |s| == NSlots && IsPlayer(player)
    ensures b in BallActions(s, player) <==> b != BallPos(s, player) && Reachable(s, player, b)
    ensures b in BallActions(s, player) ==> b in TeamCells(s, player)
  {
    var p := BallPos(s, player);
    ReachStart(s, player);
    ClosureFacts(s, player, {p});
    if b != p && Reachable(s, player, b) {
      ReachableInClosed(s, player, Closure(s, player, {p}), b);
    }
  }

  /** A hop-closed set of reachable cells holding the ball's cell is
      exactly the reachable set. */
  lemma ClosedReachableSet(s: seq<int>, player: int, c: set<int>)
    requires |s| == NSlots && IsPlayer(player)
    requires BallPos(s, player) in c && ClosedUnderHops(s, player, c)
    requires c <= ReachSet(s, player)
    ensures forall b :: b in c - {BallPos(s, player)} <==> b != BallPos(s, player) && Reachable(s, player, b)
    ensures c - {BallPos(s, player)} == BallActions(s, player)
  {
    var p := BallPos(s, player);
    forall b ensures b in c - {p} <==> b != p && Reachable(s, player, b) {
      if b != p && Reachable(s, player, b) {
        ReachableInClosed(s, player, c, b);
      }
    }
    forall b ensures b in c - {p} <==> b in BallActions(s, player) {
      BallActionsIff(s, player, b);
    }
  }

  /** Passes land on blocker slots, so covering the five slots covers every
      pass. */
  lemma PassTargetsAreSlots(s: seq<int>, player: int, a: int, c: set<int>)
    requires |s| == NSlots && IsPlayer(player)
    requires forall j :: 0 <= j < 5 && Hop(s, player, a, s[SlotOf(player, j)]) ==> s[SlotOf(player, j)] in c
    ensures forall b :: Hop(s, player, a, b) ==> b in c
  {
    forall b | Hop(s, player, a, b) ensures b in c {
      var j :| 0 <= j < 5 && s[SlotOf(player, j)] == b;
    }
  }

  /** One step of the worklist closure: every teammate that a direct pass
      from a reaches and that is not yet visited is marked visited and
      queued, in slot order. */
  method PassesFrom(s: seq<int>, player: int, a: int, visited: set<int>, queue: seq<int>)
    returns (visited': set<int>, queue': seq<int>)
    requires |s| == NSlots && IsPlayer(player)
    requires a in ReachSet(s, player) && visited <= ReachSet(s, player)
    ensures visited <= visited' <= visited + TeamCells(s, player)
    ensures visited' <= ReachSet(s, player)
    ensures forall j :: 0 <= j < 5 && Hop(s, player, a, s[SlotOf(player, j)]) ==> s[SlotOf(player, j)] in visited'
    ensures forall x :: x in queue' <==> x in queue || x in visited' - visited
    ensures visited' == visited ==> queue' == queue
  {
    ghost var team := TeamCells(s, player);
    visited', queue' := visited, queue;
    var i := 0;
    while i < 5
      invariant 0 <= i <= 5
      invariant visited <= visited' <= visited + team
      invariant visited' <= ReachSet(s, player)
      invariant forall x :: x in queue' <==> x in queue || x in visited' - visited
      invariant forall j :: 0 <= j < i && Hop(s, player, a, s[SlotOf(player, j)]) ==> s[SlotOf(player, j)] in visited'
      invariant visited' == visited ==> queue' == queue
    {
      var b := s[SlotOf(player, i)];
      if b !in visited' && Hop(s, player, a, b) {
        ReachExtend(s, player, a, b);
        assert b in ReachSet(s, player);
        visited' := visited' + {b};
        queue' := queue' + [b];
      }
      i := i + 1;
    }
  }

  /** The breadth-first worklist closure: passes are explored from each cell
      taken off the queue, teammates are visited once, and the ball's own
      cell is dropped from the answer. */
  method SingleBallActions(s: seq<int>, player: int) returns (r: set<int>)
    requires |s| == NSlots && IsPlayer(player)
    ensures forall b :: b in r <==> b != BallPos(s, player) && Reachable(s, player, b)
    ensures r == BallActions(s, player)
  {
    var p := s[BallSlot(player)];
    ghost var team := TeamCells(s, player);
    var visited := {p};
    var queue := [p];
    ReachStart(s, player);
    assert p in ReachSet(s, player);
    while queue != []
      invariant p in visited && visited <= team + {p}
      invariant forall x :: x in queue ==> x in visited
      invariant visited <= ReachSet(s, player)
      invariant forall a, b :: a in visited && a !in queue && Hop(s, player, a, b) ==> b in visited
      decreases team + {p} - visited, |queue|
    {
      var a := queue[0];
      visited, queue := PassesFrom(s, player, a, visited, queue[1..]);
      PassTargetsAreSlots(s, player, a, visited);
    }
    r := visited - {p};
    ClosedReachableSet(s, player, visited);
  }

  // ---------------------------------------------------------------------
  // Concrete positions the fixtures of test_search.py fix

  /** From the opening, white's first blocker on (1, 0) reaches exactly
      (3, 1), (0, 2) and (2, 2). */
  lemma OpeningKnightMoves()
    ensures |Opening| == NSlots && SinglePieceActions(Opening, 0) == {10, 14, 16}
  {
    forall d ensures d in SinglePieceActions(Opening, 0) <==> d in {10, 14, 16} {
      SinglePieceActionsIff(Opening, 0, d);
      if LegalKnightMove(Opening, 0, d) {
        var c := Decode(d);
        assert KnightStep(Cell(1, 0), c) && OnBoard(c);
        assert c == Cell(3, 1) || c == Cell(0, 2) || c == Cell(2, 2);
      }
    }
  }

  /** The blocker holding the ball in the opening, (3, 0), cannot move. */
  lemma OpeningHolderStays()
    ensures |Opening| == NSlots && SinglePieceActions(Opening, 2) == {}
  {
  }

  /** The five teammates' cells, listed. */
  lemma TeamCellsListed(s: seq<int>, player: int)
    requires |s| == NSlots && IsPlayer(player)
    ensures TeamCells(s, player) ==
      {s[SlotOf(player, 0)], s[SlotOf(player, 1)], s[SlotOf(player, 2)], s[SlotOf(player, 3)], s[SlotOf(player, 4)]}
  {
    var listed := {s[SlotOf(player, 0)], s[SlotOf(player, 1)], s[SlotOf(player, 2)], s[SlotOf(player, 3)], s[SlotOf(player, 4)]};
    forall b | b in TeamCells(s, player) ensures b in listed {
      var i :| 0 <= i < 5 && s[SlotOf(player, i)] == b;
    }
    assert s[SlotOf(player, 0)] in TeamCells(s, player);
    assert s[SlotOf(player, 1)] in TeamCells(s, player);
    assert s[SlotOf(player, 2)] in TeamCells(s, player);
    assert s[SlotOf(player, 3)] in TeamCells(s, player);
    assert s[SlotOf(player, 4)] in TeamCells(s, player);
  }

  /** The answer, once its members are known reachable and everything else
      lies outside a hop-closed set. */
  lemma BallActionsFromBounds(s: seq<int>, player: int, c: set<int>, expected: set<int>)
    requires |s| == NSlots && IsPlayer(player)
    requires BallPos(s, player) in c && ClosedUnderHops(s, player, c)
    requires expected == c - {BallPos(s, player)}
    requires forall b :: b in expected ==> Reachable(s, player, b)
    ensures BallActions(s, player) == expected
  {
    forall b ensures b in BallActions(s, player) <==> b in expected {
      BallActionsIff(s, player, b);
      if b in BallActions(s, player) {
        ReachableInClosed(s, player, c, b);
      }
    }
  }

  /** On a cell whose column is in range, occupancy is membership of its
      encoding. */
  lemma OccupiedIff(s: seq<int>, c: Cell)
    requires 0 <= c.col < NCols
    ensures Occupied(s, c) <==> Encode(c) in s
  {
    if Encode(c) in s {
      var j :| 0 <= j < |s| && s[j] == Encode(c);
      DecodeEncode(c);
    }
  }

  /** A pass onto teammate i along a clear line. */
  lemma HopIntro(s: seq<int>, player: int, a: int, i: int)
    requires |s| == NSlots && IsPlayer(player) && 0 <= i < 5
    requires Aligned(Decode(a), Decode(s[SlotOf(player, i)]))
    requires forall k :: 0 < k < Span(Decode(a), Decode(s[SlotOf(player, i)])) ==>
               Encode(Between(Decode(a), Decode(s[SlotOf(player, i)]), k)) !in s
    ensures Hop(s, player, a, s[SlotOf(player, i)])
  {
    var ca, cb := Decode(a), Decode(s[SlotOf(player, i)]);
    forall k | 0 < k < Span(ca, cb) ensures !Occupied(s, Between(ca, cb, k)) {
      OccupiedIff(s, Between(ca, cb, k));
    }
  }

  /** A clear pass from a reachable cell to teammate i reaches it too. */
  lemma PassOn(s: seq<int>, player: int, a: int, i: int)
    requires |s| == NSlots && IsPlayer(player) && 0 <= i < 5
    requires Reachable(s, player, a)
    requires Aligned(Decode(a), Decode(s[SlotOf(player, i)]))
    requires forall k :: 0 < k < Span(Decode(a), Decode(s[SlotOf(player, i)])) ==>
               Encode(Between(Decode(a), Decode(s[SlotOf(player, i)]), k)) !in s
    ensures Reachable(s, player, s[SlotOf(player, i)])
  {
    HopIntro(s, player, a, i);
    ReachExtend(s, player, a, s[SlotOf(player, i)]);
  }

  /** A pass whose k-th intermediate cell holds a piece is blocked. */
  lemma HopBlocked(s: seq<int>, player: int, a: int, b: int, k: int)
    requires |s| == NSlots && IsPlayer(player)
    requires 0 < k < Span(Decode(a), Decode(b))
    requires 0 <= Between(Decode(a), Decode(b), k).col < NCols
    requires Encode(Between(Decode(a), Decode(b), k)) in s
    ensures !Hop(s, player, a, b)
  {
    OccupiedIff(s, Between(Decode(a), Decode(b), k));
  }

  /** A set holding the ball is closed once every pass from it to a
      teammate outside it is ruled out. */
  lemma ClosedBySlots(s: seq<int>, player: int, c: set<int>)
    requires |s| == NSlots && IsPlayer(player)
    requires forall a, i :: a in c && 0 <= i < 5 && s[SlotOf(player, i)] !in c ==> !Hop(s, player, a, s[SlotOf(player, i)])
    ensures ClosedUnderHops(s, player, c)
  {
    forall a, b | a in c && Hop(s, player, a, b) ensures b in c {
      var i :| 0 <= i < 5 && s[SlotOf(player, i)] == b;
    }
  }

  /** From (3, 0) to (2, 0), then on to (1, 0). */
  lemma OpeningPassesLeft()
    ensures |Opening| == NSlots && Reachable(Opening, 0, 2) && Reachable(Opening, 0, 1)
  {
    var s := Opening;
    assert Decode(3) == Cell(3, 0) && Decode(2) == Cell(2, 0) && Decode(1) == Cell(1, 0);
    ReachStart(s, 0);
    PassOn(s, 0, 3, 1);
    PassOn(s, 0, 2, 0);
  }

  /** From (3, 0) to (4, 0), then on to (5, 0). */
  lemma OpeningPassesRight()
    ensures |Opening| == NSlots && Reachable(Opening, 0, 4) && Reachable(Opening, 0, 5)
  {
    var s := Opening;
    assert Decode(3) == Cell(3, 0) && Decode(4) == Cell(4, 0) && Decode(5) == Cell(5, 0);
    ReachStart(s, 0);
    PassOn(s, 0, 3, 3);
    PassOn(s, 0, 4, 4);
  }

  lemma OpeningPasses()
    ensures |Opening| == NSlots
    ensures Reachable(Opening, 0, 2) && Reachable(Opening, 0, 1) && Reachable(Opening, 0, 4) && Reachable(Opening, 0, 5)
  {
    OpeningPassesLeft();
    OpeningPassesRight();
  }

  /** From the opening, white's ball on (3, 0) can be passed to every other
      blocker of the front row: (2, 0) and (4, 0) directly, (1, 0) and (5, 0)
      through them. */
  lemma OpeningBallMoves()
    ensures |Opening| == NSlots && BallActions(Opening, 0) == {1, 2, 4, 5}
  {
    var s := Opening;
    OpeningPasses();
    TeamCellsListed(s, 0);
    ClosedBySlots(s, 0, {1, 2, 3, 4, 5});
    BallActionsFromBounds(s, 0, {1, 2, 3, 4, 5}, {1, 2, 4, 5});
  }

  /** The board of the routed-pass fixture. */
  const Routed: seq<int> := [0, 2, 14, 16, 21, 0, 7, 9, 10, 17, 23, 7]

  /** From (0, 0) straight to (2, 0), over the empty (1, 0). */
  lemma RoutedPassAlongRow()
    ensures |Routed| == NSlots && Reachable(Routed, 0, 2)
  {
    var s := Routed;
    assert s[SlotOf(0, 1)] == 2 && Decode(0) == Cell(0, 0) && Decode(2) == Cell(2, 0);
    assert Encode(Cell(1, 0)) == 1 && 1 !in s;
    ReachStart(s, 0);
    PassOn(s, 0, 0, 1);
  }

  /** From (0, 0) diagonally to (2, 2), over the empty (1, 1). */
  lemma RoutedPassDiagonal()
    ensures |Routed| == NSlots && Reachable(Routed, 0, 16)
  {
    var s := Routed;
    assert s[SlotOf(0, 3)] == 16 && Decode(0) == Cell(0, 0) && Decode(16) == Cell(2, 2);
    assert Encode(Cell(1, 1)) == 8 && 8 !in s;
    ReachStart(s, 0);
    PassOn(s, 0, 0, 3);
  }

  /** From (2, 2) back along the row to (0, 2), over the empty (1, 2). */
  lemma RoutedRelay()
    ensures |Routed| == NSlots && Reachable(Routed, 0, 14)
  {
    var s := Routed;
    RoutedPassDiagonal();
    assert s[SlotOf(0, 2)] == 14 && Decode(16) == Cell(2, 2) && Decode(14) == Cell(0, 2);
    assert Encode(Cell(1, 2)) == 15 && 15 !in s;
    PassOn(s, 0, 16, 2);
  }

  /** The ball reaches every white blocker of the routed fixture: (2, 0)
      and (2, 2) directly, (0, 2) through (2, 2) and (0, 3) through (0, 2). */
  lemma RoutedPasses()
    ensures |Routed| == NSlots
    ensures Reachable(Routed, 0, 2) && Reachable(Routed, 0, 16) &&
            Reachable(Routed, 0, 14) && Reachable(Routed, 0, 21)
  {
    var s := Routed;
    RoutedPassAlongRow();
    RoutedPassDiagonal();
    RoutedRelay();
    assert s[SlotOf(0, 4)] == 21 && Decode(14) == Cell(0, 2) && Decode(21) == Cell(0, 3);
    PassOn(s, 0, 14, 4);
  }

  /** White's ball on (0, 0); black's blocker on (0, 1) cuts the direct pass
      to (0, 2), which the ball still reaches by way of (2, 2). */
  lemma RoutedPassFixture()
    ensures BallActions([0, 2, 14, 16, 21, 0, 7, 9, 10, 17, 23, 7], 0) == {2, 14, 16, 21}
    ensures !Hop([0, 2, 14, 16, 21, 0, 7, 9, 10, 17, 23, 7], 0, 0, 14)
  {
    var s := Routed;
    HopBlocked(s, 0, 0, 14, 1);
    RoutedPasses();
    TeamCellsListed(s, 0);
    ClosedBySlots(s, 0, {0, 2, 14, 16, 21});
    BallActionsFromBounds(s, 0, {0, 2, 14, 16, 21}, {2, 14, 16, 21});
  }

  /** Black's ball on (3, 3) reaches only (2, 2): every pass onward from
      either cell crosses one of white's blockers. */
  lemma BlockedPassesFixture()
    ensures BallActions([8, 7, 9, 15, 1, 8, 0, 2, 14, 16, 24, 24], 1) == {16}
  {
    var s := Blocked;
    BlockedReach();
    BlockedClosed();
    BallActionsFromBounds(s, 1, {24, 16}, {16});
  }

  /** The board of the blocked-pass fixture. */
  const Blocked: seq<int> := [8, 7, 9, 15, 1, 8, 0, 2, 14, 16, 24, 24]

  /** Black's ball on (3, 3) passes diagonally to its blocker on (2, 2). */
  lemma BlockedReach()
    ensures |Blocked| == NSlots && Reachable(Blocked, 1, 24) && Reachable(Blocked, 1, 16)
  {
    var s := Blocked;
    assert s[SlotOf(1, 3)] == 16 && Decode(24) == Cell(3, 3) && Decode(16) == Cell(2, 2);
    ReachStart(s, 1);
    PassOn(s, 1, 24, 3);
  }

  /** Every other pass from (3, 3) or (2, 2) is cut by a white blocker or
      is not along a line. */
  lemma BlockedClosed()
    ensures |Blocked| == NSlots && ClosedUnderHops(Blocked, 1, {24, 16})
  {
    var s := Blocked;
    HopBlocked(s, 1, 24, 0, 1);
    HopBlocked(s, 1, 16, 0, 1);
    HopBlocked(s, 1, 16, 2, 1);
    HopBlocked(s, 1, 16, 14, 1);
    assert !Aligned(Decode(24), Decode(2)) && !Aligned(Decode(24), Decode(14));
    ClosedBySlots(s, 1, {24, 16});
  }

  /** Black's ball on (0, 0), walled in by white: no pass at all. */
  lemma NoPassFixture()
    ensures BallActions([8, 7, 9, 15, 1, 8, 0, 2, 14, 16, 24, 0], 1) == {}
  {
    var s := [8, 7, 9, 15, 1, 8, 0, 2, 14, 16, 24, 0];
    HopBlocked(s, 1, 0, 2, 1);
    HopBlocked(s, 1, 0, 14, 1);
    HopBlocked(s, 1, 0, 16, 1);
    HopBlocked(s, 1, 0, 24, 1);
    ClosedBySlots(s, 1, {0});
    BallActionsFromBounds(s, 1, {0}, {});
  }

  /** The ball reaches cell j of a chain of cells linked by clear passes in
      both directions, once it stands on cell m of the chain. */
  lemma {:induction false} ChainReach(s: seq<int>, player: int, cells: seq<int>, m: int, j: int)
    requires |s| == NSlots && IsPlayer(player)
    requires 0 <= m < |cells| && cells[m] == BallPos(s, player) && 0 <= j < |cells|
    requires forall i :: 0 <= i < |cells| - 1 ==>
      Hop(s, player, cells[i], cells[i + 1]) && Hop(s, player, cells[i + 1], cells[i])
    ensures Reachable(s, player, cells[j])
    decreases if j < m then m - j else j - m
  {
    if j == m {
      ReachStart(s, player);
    } else if j > m {
      ChainReach(s, player, cells, m, j - 1);
      ReachExtend(s, player, cells[j - 1], cells[j]);
    } else {
      ChainReach(s, player, cells, m, j + 1);
      ReachExtend(s, player, cells[j + 1], cells[j]);
    }
  }

  /** Cells x and y lie on one line at most two steps apart, and the cell
      between them, if any, is empty. */
  predicate Link(s: seq<int>, x: Cell, y: Cell) {
    Aligned(x, y) && Span(x, y) <= 2 && (Span(x, y) == 2 ==> Encode(Between(x, y, 1)) !in s)
  }

  /** Five teammates on cells cs, decoding to ds, strung along a chain of
      clear passes: the ball on any of them can go to every other one. */
  lemma ChainFixture(s: seq<int>, player: int, cs: seq<int>, ds: seq<Cell>)
    requires |s| == NSlots && IsPlayer(player) && |cs| == 5 && |ds| == 5
    requires TeamCells(s, player) == {cs[0], cs[1], cs[2], cs[3], cs[4]}
    requires BallPos(s, player) in cs
    requires Decode(cs[0]) == ds[0] && Decode(cs[1]) == ds[1] && Decode(cs[2]) == ds[2]
    requires Decode(cs[3]) == ds[3] && Decode(cs[4]) == ds[4]
    requires Link(s, ds[0], ds[1]) && Link(s, ds[1], ds[2]) && Link(s, ds[2], ds[3]) && Link(s, ds[3], ds[4])
    ensures BallActions(s, player) == {cs[0], cs[1], cs[2], cs[3], cs[4]} - {BallPos(s, player)}
  {
    var p := BallPos(s, player);
    var team := TeamCells(s, player);
    TwoWay(s, player, cs[0], cs[1], ds[0], ds[1]);
    TwoWay(s, player, cs[1], cs[2], ds[1], ds[2]);
    TwoWay(s, player, cs[2], cs[3], ds[2], ds[3]);
    TwoWay(s, player, cs[3], cs[4], ds[3], ds[4]);
    var m := Position(cs, p);
    forall b | b in team - {p} ensures Reachable(s, player, b) {
      ChainReach(s, player, cs, m, Position(cs, b));
    }
    BallActionsFromBounds(s, player, team, team - {p});
  }

  /** The index of x in the five cells. */
  function Position(cells: seq<int>, x: int): (i: int)
    requires |cells| == 5 && x in cells
    ensures 0 <= i < 5 && cells[i] == x
  {
    if cells[0] == x then 0 else if cells[1] == x then 1 else if cells[2] == x then 2
    else if cells[3] == x then 3 else 4
  }

  /** A pass between the teammates on cells a and b, decoding to a linked
      pair, is clear in both directions. */
  lemma TwoWay(s: seq<int>, player: int, a: int, b: int, ca: Cell, cb: Cell)
    requires |s| == NSlots && IsPlayer(player)
    requires a in TeamCells(s, player) && b in TeamCells(s, player)
    requires Decode(a) == ca && Decode(b) == cb && Link(s, ca, cb)
    ensures Hop(s, player, a, b) && Hop(s, player, b, a)
  {
    if Span(ca, cb) == 2 {
      OccupiedIff(s, Between(ca, cb, 1));
      assert Between(cb, ca, 1) == Between(ca, cb, 1);
    }
  }

  /** White's ball on (1, 1) among its blockers on (1, 0), (0, 1), (2, 1)
      and (1, 2): every pass is to a neighbouring cell, and the ball reaches
      all four. */
  lemma ClusterFixture()
    ensures BallActions([8, 7, 9, 15, 1, 8, 0, 2, 14, 16, 24, 24], 0) == {1, 7, 9, 15}
  {
    var s := [8, 7, 9, 15, 1, 8, 0, 2, 14, 16, 24, 24];
    TeamCellsListed(s, 0);
    ChainFixture(s, 0, [1, 7, 8, 9, 15], [Cell(1, 0), Cell(0, 1), Cell(1, 1), Cell(2, 1), Cell(1, 2)]);
  }

  /** White's blockers on (0, 0), (2, 0), (0, 2), (2, 2) and (0, 3), black's
      on (0, 1), (2, 1), (3, 1), (3, 2) and (2, 3): passes link (2, 0),
      (0, 0), (2, 2), (0, 2) and (0, 3) in turn, so white's ball on any of
      them reaches the other four. */
  lemma WhiteChainOpenRow(b: int, c: int)
    requires b in {0, 2, 14, 16, 21} && c in {7, 9, 10, 17, 23}
    ensures BallActions([0, 2, 14, 16, 21, b, 7, 9, 10, 17, 23, c], 0) == {0, 2, 14, 16, 21} - {b}
  {
    var s := [0, 2, 14, 16, 21, b, 7, 9, 10, 17, 23, c];
    TeamCellsListed(s, 0);
    ChainFixture(s, 0, [2, 0, 16, 14, 21], [Cell(2, 0), Cell(0, 0), Cell(2, 2), Cell(0, 2), Cell(0, 3)]);
  }

  /** As in WhiteChainOpenRow, but black's fifth blocker on (1, 2) cuts the
      pass between (2, 2) and (0, 2); passes link (2, 2), (0, 0), (2, 0),
      (0, 2) and (0, 3) instead. */
  lemma WhiteChainCutRow(b: int, c: int)
    requires b in {0, 2, 14, 16, 21} && c in {7, 9, 10, 17, 15}
    ensures BallActions([0, 2, 14, 16, 21, b, 7, 9, 10, 17, 15, c], 0) == {0, 2, 14, 16, 21} - {b}
  {
    var s := [0, 2, 14, 16, 21, b, 7, 9, 10, 17, 15, c];
    TeamCellsListed(s, 0);
    ChainFixture(s, 0, [16, 0, 2, 14, 21], [Cell(2, 2), Cell(0, 0), Cell(2, 0), Cell(0, 2), Cell(0, 3)]);
  }

  /** The same white blockers; black's on (0, 1), (2, 1), (3, 1), (3, 2) and
      (2, 3), linked by passes in that order, so black's ball on any of them
      reaches the other four. */
  lemma BlackChainToCorner(w: int, b: int)
    requires w in {0, 2, 14, 16, 21} && b in {7, 9, 10, 17, 23}
    ensures BallActions([0, 2, 14, 16, 21, w, 7, 9, 10, 17, 23, b], 1) == {7, 9, 10, 17, 23} - {b}
  {
    var s := [0, 2, 14, 16, 21, w, 7, 9, 10, 17, 23, b];
    TeamCellsListed(s, 1);
    ChainFixture(s, 1, [7, 9, 10, 17, 23], [Cell(0, 1), Cell(2, 1), Cell(3, 1), Cell(3, 2), Cell(2, 3)]);
  }

  /** As in BlackChainToCorner, with black's fifth blocker on (1, 2): passes
      link (1, 2), (0, 1), (2, 1), (3, 1) and (3, 2) in turn. */
  lemma BlackChainFromMiddle(w: int, b: int)
    requires w in {0, 2, 14, 16, 21} && b in {7, 9, 10, 17, 15}
    ensures BallActions([0, 2, 14, 16, 21, w, 7, 9, 10, 17, 15, b], 1) == {7, 9, 10, 17, 15} - {b}
  {
    var s := [0, 2, 14, 16, 21, w, 7, 9, 10, 17, 15, b];
    TeamCellsListed(s, 1);
    ChainFixture(s, 1, [15, 7, 9, 10, 17], [Cell(1, 2), Cell(0, 1), Cell(2, 1), Cell(3, 1), Cell(3, 2)]);
  }
}
