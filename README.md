# A verified model of the ball-passing board game engine

The game is played on a board of 7 columns and 8 rows. Each of the two
players (white, player 0; black, player 1) has five blockers and one ball. A
configuration is a vector of 12 encoded cells. Slots 0-4 hold white's
blockers and slot 5 white's ball. Slots 6-10 hold black's blockers and slot
11 black's ball. A cell (column, row) is encoded as `row * 7 + column`.

Blockers move like chess knights onto free cells. The ball moves by a chain
of passes to teammates. Each pass runs along a row, a column or a true
diagonal, and every cell strictly between the two ends must be empty. A
player wins by bringing their ball to the far row. The turn engine lists
and validates the actions of the player to move, applies them, and runs
the alternating game loop.

The model has four modules, one per concern:

- `board.dfy` (module `Board`): the cell codec, the validity and
  termination predicates over any 12 integers, and the class `BoardState`.
  That class holds the encoded slots in an array and keeps a decoded cache
  in step with them.
- `rules.dfy` (module `Rules`): knight moves of a blocker, and the ball's
  reachable set. The reachable set is defined twice:
  - as the existence of a clear pass chain;
  - as the breadth-first worklist loop `SingleBallActions`.
  The two are proved equal.
- `game.dfy` (module `Game`): the valid actions of a player, their
  validation with a cause for every rejection, and applying an action. Also
  the class `GameSimulator`, whose `Run` loop is proved against a history of
  accepted rounds.
- `search.dfy` (module `Search`): breadth-first planning over nodes
  (configuration, player to move) whose edges are the valid actions. It is
  proved to return a shortest path, and instantiated on the fixtures of the
  planning tests.

Most bodies in `game.py` are unimplemented stubs, and the search module's
implementation is not part of this model. The behaviour modelled is the one
their doc comments and the assertions of `test_search.py` fix. Two choices
settle what neither says:

- A blocker that holds its team's ball has no knight moves.
  `Rules.HolderMoveInvalidates` shows that such a move would leave the ball
  unheld and so the board invalid.
- `validate_action` rejects an action with a cause, as its doc comment asks.
  The code as written always returns `True` (game.py:192-195); the model
  follows the doc comment instead.

## Model

| member | source | states |
|---|---|---|
| Board.Encode | game.py:31-40 | an on-board cell encodes to an integer in [0, 55] |
| Board.Decode | game.py:42-51 | the column of a decoded cell is in range, encoding it gives the integer back, and it lies on the board exactly when the integer is in [0, 55] |
| Board.DecodeEncode | game.py:31-51 | decoding undoes encoding on every cell whose column is in range |
| Board.CodecBijection | test_search.py:115-120 | encode and decode are mutually inverse between the 56 cells and [0, 55] |
| Board.DecodeInjective | game.py:42-51 | two integers decode to the same cell only if they are equal |
| Board.OpeningDecodes | test_search.py:56-65 | the opening vector decodes to the listed cells, e.g. 50 to (1, 7) |
| Board.DecodeAllSpec | game.py:25-29 | the decoded list has one cell per slot; each encodes back to its slot and is on the board exactly when the slot is in range |
| Board.IsValid | game.py:65-78 | a board is valid iff every slot is in [0, 55], no two blockers share a cell, and each ball sits on a blocker of its own team |
| Board.ValidIff | game.py:65-78 | a board is valid iff every slot is in [0, 55], two slots coincide only when a ball sits on a blocker of its own team, and each ball sits on one of its team's blockers; a valid board has exactly one holder per ball |
| Board.OpeningValid | test_search.py:123-124 | the opening is valid and not terminal |
| Board.OutOfRangeInvalid | test_search.py:126-136 | any slot outside [0, 55] makes a board invalid |
| Board.CollisionInvalid | test_search.py:138-141 | two pieces on one cell make a board invalid unless one is a ball on its own blocker |
| Board.UnheldBallInvalid | test_search.py:149-154 | a ball on no blocker of its own team makes a board invalid |
| Board.ValidityProbes | test_search.py:122-154 | the seven probes of the validity test get the expected answers, in order |
| Board.IsTerminal | game.py:53-63 | a board is terminal iff it is valid and white's ball is on row 7 or black's on row 0 |
| Board.TerminationFixtures | test_search.py:100-113 | the six termination fixtures: the opening and three malformed boards are not terminal, the two wins are |
| Board.BoardState.constructor | game.py:8-16 | a fresh board holds the opening with its decoded cache in step |
| Board.BoardState.MakeState | game.py:25-29 | the decoded list has one cell per slot of the board |
| Board.BoardState.Update | game.py:18-23 | slot idx and its cache entry are overwritten, the other eleven of each are unchanged, and a coherent cache stays coherent |
| Rules.SinglePieceActions | game.py:82-98 | every destination is on the board and differs from the piece's cell |
| Rules.SinglePieceActionsIff | game.py:82-98 | a cell is a destination iff the blocker does not hold the ball, the cell is on the board, a knight step away and free of every other piece |
| Rules.HolderMoveInvalidates | game.py:65-69 | moving the blocker that holds the ball anywhere makes a valid board invalid |
| Rules.OpeningKnightMoves | test_search.py:81-84 | from the opening, white's first blocker can go to exactly 10, 14 and 16 |
| Rules.OpeningHolderStays | game.py:82-98 | the opening's ball holder has no moves |
| Rules.ReachableIsTeammate | game.py:100-115 | the ball only reaches its own cell or a teammate's cell |
| Rules.ClosureFacts | game.py:100-115 | the pass closure contains its seed, adds only teammates, admits no further pass, and holds only reachable cells when the seed does |
| Rules.BallActionsIff | game.py:100-115 | a cell is a ball destination iff it differs from the ball's cell and a chain of clear passes reaches it; every destination is a teammate's cell |
| Rules.ClosedReachableSet | game.py:100-115 | a pass-closed set of reachable cells holding the ball, minus the ball's cell, is exactly the destination set |
| Rules.PassesFrom | game.py:100-115 | one worklist step marks and queues every teammate one clear pass away that was not yet visited, and only reachable teammates |
| Rules.SingleBallActions | game.py:100-115 | the worklist loop returns exactly the cells other than the ball's that a clear pass chain reaches |
| Rules.OpeningBallMoves | test_search.py:85-88 | from the opening, white's ball can go to exactly 1, 2, 4 and 5 |
| Rules.BlockedPassesFixture | test_search.py:165-172 | black's ball on (3, 3) reaches only (2, 2) |
| Rules.NoPassFixture | test_search.py:173-180 | black's ball walled in on (0, 0) has no destination |
| Rules.RoutedPassFixture | test_search.py:181-188 | the direct pass to (0, 2) is blocked, yet the ball reaches it through (2, 2); the destinations are exactly (2, 0), (0, 2), (2, 2) and (0, 3) |
| Rules.ChainFixture | game.py:100-115 | five teammates linked in turn by clear passes of at most two steps: the ball on any of them can go to exactly the other four |
| Rules.ClusterFixture | test_search.py:157-164 | white's ball on (1, 1) can go to exactly (0, 1), (2, 1), (1, 2) and (1, 0) |
| Rules.WhiteChainOpenRow | test_search.py:181-220 | in the first shared layout, white's ball on any of its five blockers can go to exactly the other four |
| Rules.BlackChainToCorner | test_search.py:221-260 | in the same layout, black's ball on any of its five blockers can go to exactly the other four |
| Rules.BlackChainFromMiddle | test_search.py:261-300 | with black's fifth blocker on (1, 2), black's ball on any of its blockers can go to exactly the other four |
| Rules.WhiteChainCutRow | test_search.py:301-340 | with black's fifth blocker on (1, 2) cutting one of white's passes, white's ball on any of its blockers still reaches exactly the other four |
| Game.ValidActions | game.py:156-175 | every action names a piece 0..5 and moves it off its cell |
| Game.ValidActionsIff | game.py:156-175 | an action is valid iff it is a legal knight move of blocker 0..4 or a pass chain of the ball (index 5) to another teammate |
| Game.ValidateAction | game.py:177-191 | accepts exactly the valid actions; a rejection names the piece, and its cause is an index outside 0..5 iff the index is out of range, and a pinned ball holder iff a blocker holds the ball |
| Game.ApplyPreservesValidity | game.py:197-203 | applying a valid action to a valid board yields a valid board |
| Game.TerminatingMove | game.py:53-63 | an action that makes a live valid board terminal is a pass of the mover's ball, which then stands on its goal row while the other ball does not |
| Game.AcceptedKeepsValid | game.py:127-154 | every board of a game history that starts valid is valid |
| Game.AcceptedKeepsValidAtEnd | game.py:127-154 | the last board of a game history that starts valid is valid |
| Game.OpeningAcceptedActions | test_search.py:81-97 | the seven actions of the validation test are accepted from the opening |
| Game.OpeningRejectedActions | test_search.py:67-71 | (0, 6) and (4, 0) are not generated from the opening, and (0, 6) is rejected for its destination |
| Game.GameSimulator.constructor | game.py:122-125 | a new simulator holds the opening, before round 0 |
| Game.GameSimulator.GenerateValidActions | game.py:156-175 | the loop over the five blockers and the ball returns exactly the valid actions |
| Game.GameSimulator.ValidateMove | game.py:177-195 | succeeds iff the action is valid, with the cause of the rejection otherwise |
| Game.GameSimulator.Update | game.py:197-203 | slot player * 6 + idx receives the destination and nothing else changes |
| Game.GameSimulator.PlayRound | game.py:131-148 | the round advances by one, its mover is round % 2, and the board changes iff the action is accepted |
| Game.GameSimulator.Run | game.py:127-154 | the boards form a history of accepted rounds, mover round % 2; the game ends with the last mover winning on a terminal board, or with the other player winning at the first rejected action, at that round |
| Game.WinnerReachedGoal | game.py:150-154 | a game that ends without issues ends on a pass in its last round; the winner is that round's mover, whose ball stands on its goal row while the loser's does not |
| Search.Next | test_search.py:34-36 | every edge flips the player to move |
| Search.GameMovesArePieceMoves | game.py:156-175 | the game's moves name one of the mover's six pieces |
| Search.Solve | test_search.py:9-54 | a found path leads from the start to the goal by moves and is no longer than any other; no path exists when none is reported; a start already at the goal answers with the start alone |
| Search.Plan | test_search.py:9-54 | the same answer over the valid actions of the game |
| Search.Expand | test_search.py:9-54 | one layer of breadth-first search from the nodes k moves away: a path of k + 1 moves to the goal, or exactly the nodes first reached after k + 1 moves, each with a shortest path to it |
| Search.PathPlayers | test_search.py:34-36 | along a path the players alternate, starting with the start's |
| Search.GoalAtStartFixture | test_search.py:9-16 | searching from the opening for the opening answers with the start alone |
| Search.OneMoveFixture | test_search.py:26-36 | the goal one knight move away is answered with exactly that move and the goal node, black to move |
| Search.DetourLowerBound | test_search.py:45-50 | no path from the opening to the goal (2, 3) has fewer than four moves |
| Search.DetourFixture | test_search.py:38-54 | that goal is answered with five entries: white's first blocker to (0, 2) or (3, 1), black moves, the blocker to (2, 3), black undoes, white to move at the goal |

## Left out

- The `print` of each round (game.py:138): console output only.
- The players' policies and the value they report (game.py:137). `Run` takes the sequence of actions the players submit instead of calling them.
- Game.GameSimulator.Run: when the submitted actions run out before the game ends, it returns `OutOfMoves`. The loop of game.py would keep asking the policies.
- Game.GameSimulator.Run: requires a non-terminal start. On a terminal start, game.py:151 reads a `player_idx` that was never assigned.
- Game.GameSimulator.Run: a rejected action ends the game with the other player winning, as game.py:140-145 and the doc comment of `validate_action` intend. The `ValueError` itself is not modelled as an exception.
- The text of the `ValueError` messages and of the outcome strings (game.py:143-154): modelled as the datatypes `Cause`, `Side` and `Reason`.
- numpy array mechanics: the configuration is an `array<int>` in `BoardState` and a `seq<int>` elsewhere.
- The search algorithm registry `set_search_alg` (test_search.py:21-31): it selects among strategies and has no behaviour of its own.
- search.py is not part of this model. `Search.Solve` is a breadth-first search written from the planning tests alone, with a depth budget (reported as `OutOfBudget`) so that it terminates. It expands nodes in no particular order, so among several shortest paths it may return any one.
- Search.Solve: the goal is matched on the configuration alone, whichever player is to move, as the planning tests show.
- The reachability fixtures at test_search.py:156-348 are stated family by family. The four chain lemmas above take the ball's cell, and in the white families also black's ball, as a parameter, so each covers five fixtures and more.
