/** The turn engine: the actions a player may take, their validation with a
    cause for every rejection, applying an accepted action, and the game loop
    that alternates the two players until a ball reaches its goal row or a
    player submits an invalid action. */
module Game {
  import opened Board
  import opened Rules

  /** A move: the mover's relative piece index (0..4 a blocker, 5 the ball)
      and the encoded destination. */
  datatype Action = Action(idx: int, pos: int)

  /** Why an action was rejected. */
  datatype Cause =
    | IndexOutOfRange(idx: int)
    | HolderCannotMove(idx: int)
    | IllegalDestination(idx: int, pos: int)

  /** The outcome of a validation: acceptance, or the error game.py
      raises as a ValueError. */
  datatype Result<T> = Ok(value: T) | Err(cause: Cause)

  datatype Side = White | Black

  /** Player 0 plays white, player 1 black. */
  function SideOf(player: int): Side {
    if player == 0 then White else Black
  }

  /** The legal destinations of the mover's relative piece idx. */
  function Destinations(s: seq<int>, player: int, idx: int): set<int>
    requires |s| == NSlots && IsPlayer(player) && 0 <= idx < 6
  {
    if idx < 5 then SinglePieceActions(s, SlotOf(player, idx)) else BallActions(s, player)
  }

  /** Every action the player may take: each blocker's knight moves and
      each destination of the ball. Every action moves its piece. */
  function ValidActions(s: seq<int>, player: int): (r: set<Action>)
    requires |s| == NSlots && IsPlayer(player)
    ensures forall a :: a in r ==> 0 <= a.idx < 6 && a.pos != s[SlotOf(player, a.idx)]
  {
    set i, d | 0 <= i < 6 && d in Destinations(s, player, i) :: Action(i, d)
  }

  /** An action is valid iff it is an unobstructed knight move of a blocker
      that does not hold the ball, or a pass of the ball along a clear chain
      to another teammate. */
  lemma ValidActionsIff(s: seq<int>, player: int, a: Action)
    requires |s| == NSlots && IsPlayer(player)
    ensures a in ValidActions(s, player) <==>
      (0 <= a.idx < 5 && LegalKnightMove(s, SlotOf(player, a.idx), a.pos)) ||
      (a.idx == 5 && a.pos != BallPos(s, player) && Reachable(s, player, a.pos))
  {
    if 0 <= a.idx < 5 {
      SinglePieceActionsIff(s, SlotOf(player, a.idx), a.pos);
    } else if a.idx == 5 {
      BallActionsIff(s, player, a.pos);
    }
  }

  /** Accepts an action or rejects it with the check that failed: the
      relative index, a blocker pinned by the ball it holds, or a
      destination outside the piece's legal set. */
  function ValidateAction(s: seq<int>, player: int, a: Action): (r: Result<bool>)
    requires |s| == NSlots && IsPlayer(player)
    ensures r.Ok? <==> a in ValidActions(s, player)
    ensures r.Ok? ==> r.value
    ensures r.Err? ==> r.cause.idx == a.idx
    ensures r == Err(IndexOutOfRange(a.idx)) <==> !(0 <= a.idx < 6)
    ensures r == Err(HolderCannotMove(a.idx)) <==> 0 <= a.idx < 5 && HoldsBall(s, SlotOf(player, a.idx))
  {
    if !(0 <= a.idx < 6) then Err(IndexOutOfRange(a.idx))
    else if a.idx < 5 && HoldsBall(s, SlotOf(player, a.idx)) then Err(HolderCannotMove(a.idx))
    else if a.pos !in Destinations(s, player, a.idx) then Err(IllegalDestination(a.idx, a.pos))
    else Ok(true)
  }

  /** The configuration after the player's action: one slot rewritten. */
  function Apply(s: seq<int>, player: int, a: Action): (t: seq<int>)
    requires |s| == NSlots && IsPlayer(player) && 0 <= a.idx < 6
    ensures |t| == NSlots
  {
    s[SlotOf(player, a.idx) := a.pos]
  }

  /** A valid action keeps a valid board valid: a knight move lands on a
      free cell and leaves the ball with its holder, a pass lands the ball
      on a teammate. */
  lemma ApplyPreservesValidity(s: seq<int>, player: int, a: Action)
    requires |s| == NSlots && IsPlayer(player) && IsValid(s)
    requires a in ValidActions(s, player)
    ensures IsValid(Apply(s, player, a))
  {
    var t := Apply(s, player, a);
    var slot := SlotOf(player, a.idx);
    var h0 :| 0 <= h0 < 5 && Carries(s, h0, 5);
    var h1 :| 6 <= h1 < 11 && Carries(s, h1, 11);
    if a.idx < 5 {
      SinglePieceActionsIff(s, slot, a.pos);
      assert FreeFor(s, slot, a.pos) && !HoldsBall(s, slot);
      assert Carries(t, h0, 5) && Carries(t, h1, 11);
    } else {
      BallActionsIff(s, player, a.pos);
      var j :| 0 <= j < 5 && s[SlotOf(player, j)] == a.pos;
      assert InRange(s, SlotOf(player, j));
      if player == 0 {
        assert Carries(t, j, 5) && Carries(t, h1, 11);
      } else {
        assert Carries(t, h0, 5) && Carries(t, 6 + j, 11);
      }
    }
    forall i | 0 <= i < NSlots ensures InRange(t, i) {
      assert InRange(s, i);
    }
    forall i, k | 0 <= i < k < NSlots && IsBlockerSlot(i) && IsBlockerSlot(k) ensures Apart(t, i, k) {
      assert Apart(s, i, k);
    }
  }

  /** Only the mover can end the game, and only with its ball: an action
      that turns a live valid board into a terminal one is a pass, after
      which the mover's ball is on its goal row and the other ball is not. */
  lemma TerminatingMove(s: seq<int>, player: int, a: Action)
    requires |s| == NSlots && IsPlayer(player) && IsValid(s) && !IsTerminal(s)
    requires 0 <= a.idx < 6 && IsTerminal(Apply(s, player, a))
    ensures a.idx == 5
    ensures OnGoalRow(Apply(s, player, a), player)
    ensures !OnGoalRow(Apply(s, player, a), 1 - player)
  {
    var t := Apply(s, player, a);
    assert t[BallSlot(1 - player)] == s[BallSlot(1 - player)];
  }

  // ---------------------------------------------------------------------
  // The game loop

  /** Why the game ended. */
  datatype Reason = NoIssues | InvalidAction(cause: Cause)

  /** The result of a game: the last round played, the winner and why; or
      the round reached when the submitted actions ran out. */
  datatype Outcome =
    | Finished(round: int, winner: Side, reason: Reason)
    | OutOfMoves(round: int)

  /** A history of accepted rounds: boards[i + 1] is boards[i] after the
      action submitted for round first + i, which player (first + i) % 2
      played on a non-terminal board and which validation accepted. */
  ghost predicate Accepted(boards: seq<seq<int>>, first: int, moves: seq<Action>)
  {
    1 <= |boards| <= |moves| + 1 &&
    |boards[|boards| - 1]| == NSlots &&
    forall i {:trigger Round(boards, first, moves, i)} :: 0 <= i < |boards| - 1 ==>
      Round(boards, first, moves, i)
  }

  /** Round i of a history: board i is a live board on which the mover of
      that round submitted an accepted action, and board i + 1 is its result. */
  ghost predicate Round(boards: seq<seq<int>>, first: int, moves: seq<Action>, i: int)
    requires 0 <= i < |boards| - 1 && i < |moves|
  {
    |boards[i]| == NSlots && !IsTerminal(boards[i]) &&
    ValidateAction(boards[i], (first + i) % 2, moves[i]).Ok? &&
    boards[i + 1] == Apply(boards[i], (first + i) % 2, moves[i])
  }

  /** How a game that produced this history ended, read off the history
      alone: the round of the outcome, who won and why. The first round is
      numbered first, so the last board was reached in round
      first + |boards| - 2. */
  ghost predicate Concluded(o: Outcome, boards: seq<seq<int>>, first: int, moves: seq<Action>)
    requires Accepted(boards, first, moves)
  {
    var last := boards[|boards| - 1];
    match o
    case OutOfMoves(round) =>
      round == first + |boards| - 2 && |boards| == |moves| + 1 && !IsTerminal(last)
    case Finished(round, winner, NoIssues) =>
      round == first + |boards| - 2 && 0 <= round && IsTerminal(last) &&
      winner == SideOf(round % 2)
    case Finished(round, winner, InvalidAction(cause)) =>
      round == first + |boards| - 1 && 0 <= round && |boards| <= |moves| &&
      !IsTerminal(last) && winner == SideOf(1 - round % 2) &&
      ValidateAction(last, round % 2, moves[|boards| - 1]) == Err(cause)
  }

  /** A history grows by one accepted round. */
  lemma AcceptedExtend(boards: seq<seq<int>>, first: int, moves: seq<Action>,
                       last: seq<int>, player: int, next: seq<int>)
    requires Accepted(boards, first, moves) && |boards| <= |moves|
    requires last == boards[|boards| - 1] && player == (first + |boards| - 1) % 2
    requires !IsTerminal(last) && ValidateAction(last, player, moves[|boards| - 1]).Ok?
    requires next == Apply(last, player, moves[|boards| - 1])
    ensures Accepted(boards + [next], first, moves)
  {
    var b := boards + [next];
    forall i | 0 <= i < |b| - 1
      ensures Round(b, first, moves, i)
    {
      assert b[i] == boards[i];
      if i < |boards| - 1 {
        assert Round(boards, first, moves, i);
        assert b[i + 1] == boards[i + 1];
      }
    }
  }

  /** Every board of a history that starts valid is valid: only accepted
      actions are applied. */
  lemma {:induction false} AcceptedKeepsValid(boards: seq<seq<int>>, first: int, moves: seq<Action>, i: int)
    requires Accepted(boards, first, moves) && |boards[0]| == NSlots && IsValid(boards[0])
    requires 0 <= i < |boards|
    ensures |boards[i]| == NSlots && IsValid(boards[i])
    decreases i
  {
    if i > 0 {
      AcceptedKeepsValid(boards, first, moves, i - 1);
      assert Round(boards, first, moves, i - 1);
      ApplyPreservesValidity(boards[i - 1], (first + i - 1) % 2, moves[i - 1]);
    }
  }

  // ---------------------------------------------------------------------
  // The simulator

  class GameSimulator {
    var gameState: BoardState
    /** The round last played; -1 before the first move. */
    var currentRound: int

    ghost predicate Valid()
      reads this, gameState, gameState.state
    {
      gameState.Wellformed() && gameState.CacheCoherent()
    }

    /** The current configuration. */
    ghost function Board(): seq<int>
      reads this, gameState, gameState.state
    {
      gameState.state[..]
    }

    /** A game at the opening, before round 0. */
    constructor ()
      ensures Valid() && fresh(gameState) && fresh(gameState.state)
      ensures Board() == Opening && currentRound == -1
    {
      gameState := new BoardState();
      currentRound := -1;
    }

    /** The union, over the player's five blockers and the ball, of their
        destinations, computed with the worklist closure for the ball. */
    method GenerateValidActions(player: int) returns (r: set<Action>)
      requires Valid() && IsPlayer(player)
      ensures r == ValidActions(Board(), player)
      ensures forall a :: a in r ==> 0 <= a.idx < 6
    {
      var s := gameState.state[..];
      r := {};
      var i := 0;
      while i < 5
        invariant 0 <= i <= 5
        invariant r == set j, d | 0 <= j < i && d in Destinations(s, player, j) :: Action(j, d)
      {
        var ds := SinglePieceActions(s, SlotOf(player, i));
        r := r + set d | d in ds :: Action(i, d);
        i := i + 1;
      }
      var balls := SingleBallActions(s, player);
      r := r + set d | d in balls :: Action(5, d);
    }

    /** Accepts the action, or rejects it with its cause: ValidateAction,
        which carries the contract, evaluated on the current board. */
    method ValidateMove(a: Action, player: int) returns (r: Result<bool>)
      requires Valid() && IsPlayer(player)
      ensures r.Ok? <==> a in ValidActions(Board(), player)
      ensures r == ValidateAction(Board(), player, a)
    {
      r := ValidateAction(gameState.state[..], player, a);
    }

    /** Writes the destination of an accepted action into the mover's slot,
        keeping the decoded cache in step. */
    method Update(a: Action, player: int)
      requires Valid() && IsPlayer(player) && 0 <= a.idx < 6
      modifies gameState, gameState.state
      ensures Valid() && gameState.state == old(gameState.state)
      ensures Board() == Apply(old(Board()), player, a)
    {
      gameState.Update(SlotOf(player, a.idx), a.pos);
    }

    /** One round of the game loop: advance the round counter, let its mover
        submit the action, and apply the action when it is accepted. */
    method PlayRound(a: Action) returns (v: Result<bool>)
      requires Valid() && currentRound >= -1
      modifies this, gameState, gameState.state
      ensures Valid() && gameState == old(gameState) && gameState.state == old(gameState.state)
      ensures currentRound == old(currentRound) + 1
      ensures v == ValidateAction(old(Board()), currentRound % 2, a)
      ensures v.Ok? ==> Board() == Apply(old(Board()), currentRound % 2, a)
      ensures v.Err? ==> Board() == old(Board())
    {
      currentRound := currentRound + 1;
      var player := currentRound % 2;
      v := ValidateMove(a, player);
      if v.Ok? {
        Update(a, player);
      }
    }

    /** Plays the submitted actions in turn, round after round, until the
        board is terminal, an action is rejected, or the actions run out.
        The mover of round r is player r % 2. The ghost history lists the
        board before the first round and after each accepted action. */
    method Run(moves: seq<Action>) returns (o: Outcome, ghost boards: seq<seq<int>>)
      requires Valid() && currentRound >= -1 && !IsTerminal(Board())
      modifies this, gameState, gameState.state
      ensures Valid() && gameState == old(gameState)
      ensures Accepted(boards, old(currentRound) + 1, moves)
      ensures boards[0] == old(Board()) && boards[|boards| - 1] == Board()
      ensures currentRound == o.round
      ensures Concluded(o, boards, old(currentRound) + 1, moves)
    {
      boards := [Board()];
      var k := 0;
      while !IsTerminal(gameState.state[..])
        invariant 0 <= k <= |moves| && |boards| == k + 1
        invariant Valid() && gameState == old(gameState) && gameState.state == old(gameState.state)
        invariant currentRound == old(currentRound) + k
        invariant Accepted(boards, old(currentRound) + 1, moves)
        invariant boards[0] == old(Board()) && boards[k] == Board()
        decreases |moves| - k
      {
        if k == |moves| {
          o := OutOfMoves(currentRound);
          return;
        }
        ghost var cur := Board();
        var v := PlayRound(moves[k]);
        if v.Err? {
          o := Finished(currentRound, SideOf(1 - currentRound % 2), InvalidAction(v.cause));
          return;
        }
        AcceptedExtend(boards, old(currentRound) + 1, moves, cur, currentRound % 2, Board());
        boards := boards + [Board()];
        k := k + 1;
      }
      o := Finished(currentRound, SideOf(currentRound % 2), NoIssues);
    }
  }

  /** The last board of a history that starts valid is valid. */
  lemma AcceptedKeepsValidAtEnd(boards: seq<seq<int>>, first: int, moves: seq<Action>)
    requires Accepted(boards, first, moves) && |boards[0]| == NSlots
    ensures IsValid(boards[0]) ==> IsValid(boards[|boards| - 1])
  {
    if IsValid(boards[0]) {
      AcceptedKeepsValid(boards, first, moves, |boards| - 1);
    }
  }

  /** A game won without issues was won by the player whose pass brought
      its ball to its goal row in the last round, while the loser's ball
      is off its own. */
  lemma WinnerReachedGoal(o: Outcome, boards: seq<seq<int>>, first: int, moves: seq<Action>)
    requires Accepted(boards, first, moves) && |boards[0]| == NSlots
    requires IsValid(boards[0]) && !IsTerminal(boards[0])
    requires Concluded(o, boards, first, moves) && o.Finished? && o.reason == NoIssues
    ensures |boards| >= 2
    ensures var w := (first + |boards| - 2) % 2;
      o.winner == SideOf(w) && moves[|boards| - 2].idx == 5 &&
      OnGoalRow(boards[|boards| - 1], w) && !OnGoalRow(boards[|boards| - 1], 1 - w)
  {
    var n := |boards|;
    assert n >= 2;
    AcceptedKeepsValid(boards, first, moves, n - 2);
    assert Round(boards, first, moves, n - 2);
    TerminatingMove(boards[n - 2], (first + n - 2) % 2, moves[n - 2]);
  }

  // ---------------------------------------------------------------------
  // Concrete facts the fixtures of test_search.py fix

  /** From the opening, white may move its first blocker to 14, 16 or 10
      and pass the ball to 1, 2, 4 or 5. */
  lemma OpeningAcceptedActions()
    ensures |Opening| == NSlots
    ensures ValidateAction(Opening, 0, Action(0, 14)) == Ok(true)
    ensures ValidateAction(Opening, 0, Action(0, 16)) == Ok(true)
    ensures ValidateAction(Opening, 0, Action(0, 10)) == Ok(true)
    ensures ValidateAction(Opening, 0, Action(5, 1)) == Ok(true)
    ensures ValidateAction(Opening, 0, Action(5, 2)) == Ok(true)
    ensures ValidateAction(Opening, 0, Action(5, 4)) == Ok(true)
    ensures ValidateAction(Opening, 0, Action(5, 5)) == Ok(true)
  {
    OpeningKnightMoves();
    OpeningBallMoves();
  }

  /** From the opening, white's first blocker cannot go to (6, 0) and its
      fifth cannot go to (0, 0): neither is a knight move away. */
  lemma OpeningRejectedActions()
    ensures |Opening| == NSlots
    ensures Action(0, 6) !in ValidActions(Opening, 0)
    ensures Action(4, 0) !in ValidActions(Opening, 0)
    ensures ValidateAction(Opening, 0, Action(0, 6)) == Err(IllegalDestination(0, 6))
  {
    OpeningKnightMoves();
    ValidActionsIff(Opening, 0, Action(4, 0));
  }
}
