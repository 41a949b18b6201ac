# Monte Carlo tree search for tile games, modelled in Dafny

The repository is a Rust Monte Carlo tree search (MCTS) player with several games built on it. This project models its core:

- **The search engine** (`src/monte_carlo_tree_search.rs`). A tree of nodes holds simulation, win and draw counters and the moves not yet expanded. Each node records its origin: the root board, or its parent and the move that led to it. One iteration of `algorithm` does four things:
  - It selects a node by descending through the children with the best exploration score.
  - It expands one untried move, drawn at random.
  - It plays random moves until the game ends.
  - It backpropagates the outcome to the root, flipping Win and Loss at each level.

  The model is generic over a game, given as a record of functions on board values. The tree is an arena: node 0 is the root, and nodes name their parent and children by index.
- **Tic-tac-toe** (`src/tic_tac_toe.rs`). Its board starts with an O in the centre.
- **Ultimate tic-tac-toe** (`src/ultimate_tic_tac_toe/mod.rs`). It has nine sub-boards, each of which can be won, lost or drawn. A move forces the next player into the matching sub-board while that sub-board is still open.
- **Flower Skud** (`src/flower_skud/`). It is a Pai Sho variant on a diamond-shaped board of 17 × 17 points with the corners cut at |x| + |y| = 12. The modelled parts are:
  - tiles and their clashes, positions and gates (`other.rs`);
  - the 289-cell grid built from the played tiles (`grid.rs`);
  - move generation: a breadth-first flood fill bounded by the tile's move range, the red/white landing rules and the clash check along rows and columns (`mod.rs`);
  - the board: reserves, played tiles, turns, harmony rings around the centre, reserve and fifty-move rules, legal moves and `apply_move` (`board.rs`).
- **The earlier Skud Pai Sho board** (`src/skud_pai_sho.rs`). It adds accent tiles and the harmony bonus of an arranging move. A Boat bonus pushes a tile. A Wheel bonus is meant to rotate the eight points around it; as written, each of its four branches only shifts x by one, so two tiles can land on the wheel. The model proves that behaviour and then uses a corrected rotation (see Findings).

Each core file keeps its form:

- Structs whose methods mutate fields are `class`es. Their methods carry `modifies` clauses and are proved against value-level specification functions.
- Loops are `while`/`for` loops with invariants.
- Pure helpers are functions and lemmas.

Files:

- `mcts.dfy`: the engine.
- `lines.dfy`: the eight winning lines in source order.
- `tic_tac_toe.dfy`: tic-tac-toe.
- `ultimate.dfy`: ultimate tic-tac-toe.
- `flower_types.dfy`, `flower_grid.dfy`, `flower_moves.dfy` and `flower_board.dfy`: Flower Skud.
- `played.dfy`: the reserve and played-tile list operations shared by both Pai Sho boards.
- `skud_pai_sho.dfy`: the earlier Skud Pai Sho board.
- `optional.dfy`: the `Option` type.

## Model

| member | source | states |
|---|---|---|
| Mcts.Opponent | src/monte_carlo_tree_search.rs:139-142 | the player a simulation is judged for is the other one from the player to move |
| Mcts.Flip | src/monte_carlo_tree_search.rs:121-131 | one level up a Draw stays a Draw, and a Win or Loss turns into the other result |
| Mcts.Path | src/monte_carlo_tree_search.rs:132-134 | the chain of parents followed from a node starts at that node, ends at the root and never rises above the node's own index |
| Mcts.BackpropagatedOnPath | src/monte_carlo_tree_search.rs:116-136 | backpropagation adds one simulation to every node on the path to the root; it credits a win or draw as the outcome appears at that node's level (flipped once per level) |
| Mcts.BackpropagatedOffPath | src/monte_carlo_tree_search.rs:116-136 | backpropagation leaves every node off the path to the root unchanged |
| Mcts.BackpropagatedKeeps | src/monte_carlo_tree_search.rs:116-136 | backpropagation changes only counters: moves, children and origins are kept |
| Mcts.BackpropagatedValid | src/monte_carlo_tree_search.rs:116-136 | after the fresh leaf is credited, every node's simulations are again at least the sum of its children's simulations and at least its wins plus draws, the root has gained one simulation, and the links are unchanged |
| Mcts.RemoveAt | src/monte_carlo_tree_search.rs:100-102 | removing the drawn move from the untried list removes exactly that element: one entry fewer, and the same multiset once it is added back |
| Mcts.AttachMoves | src/monte_carlo_tree_search.rs:96-114 | the new child's board is the parent's board with the removed move applied; its untried moves are the legal moves of that board; every move of a node is either still untried or the move of exactly one child |
| Mcts.AttachCounts | src/monte_carlo_tree_search.rs:104-112 | after appending a child with zero counters to the leaf, every node's simulations are still at least the sum of its children's simulations, and only the new child is still waiting for its first visit |
| Mcts.WinRate | src/monte_carlo_tree_search.rs:69-71 | the win rate (2 wins + draws) / (2 simulations) lies between 0 and 1 whenever wins + draws do not exceed the simulations |
| Mcts.ChildrenVisited | src/monte_carlo_tree_search.rs:66-73 | in a valid tree, every child reached by selection has at least one simulation and at most its parent's, so the score's divisions and logarithm are defined |
| Mcts.Scores | src/monte_carlo_tree_search.rs:66-78 | one exploration score per child, in child order |
| Mcts.FirstMaxUpToIsFirstMaximiser | src/monte_carlo_tree_search.rs:64-78 | the strict `alpha > max_alpha` scan, started at 0.0, returns the first child with the largest positive score, or child 0 when no score is positive |
| Mcts.Tree.BestChildOf | src/monte_carlo_tree_search.rs:64-78 | the loop picks the first child with the maximal score, or child 0 when no score exceeds 0 |
| Mcts.Descend | src/monte_carlo_tree_search.rs:56-82 | descent ends on a node below the start. It is a Leaf exactly when the node has untried moves. An End node has no children, and its board has no legal moves |
| Mcts.PathThrough | src/monte_carlo_tree_search.rs:79 | descending from a child keeps the parent on the path, so the selected node lies below the node selection started from |
| Mcts.Tree.Selection | src/monte_carlo_tree_search.rs:56-82 | the iterative descent computes Descend from the root |
| Mcts.Tree.constructor | src/monte_carlo_tree_search.rs:27-35 | the tree is one root node with zero counters, the legal moves of the board as untried moves, and origin Root(board) |
| Mcts.Tree.Expansion | src/monte_carlo_tree_search.rs:96-114 | appends one child for the drawn move and returns it with the board extracted for it; existing origins are kept |
| Mcts.Tree.Backpropagation | src/monte_carlo_tree_search.rs:116-136 | the new node list is Backpropagated(old nodes, start, value) |
| Mcts.Tree.Algorithm | src/monte_carlo_tree_search.rs:42-49 | one iteration keeps the tree valid, adds exactly one simulation at the root, and never removes nodes or changes origins |
| Mcts.PlayoutEnds | src/monte_carlo_tree_search.rs:145-154 | the random playout loop stops on a board with no legal moves, for any game where every move lowers a height measure |
| Mcts.Simulation | src/monte_carlo_tree_search.rs:138-156 | the rollout returns the finished result for the opponent of the starting player to move, or Draw when the game reports none |
| Mcts.Engine | src/monte_carlo_tree_search.rs:26-40 | after `iterations` iterations the root has exactly `iterations` simulations, its origin is Root(board), and the tree is valid |
| Lines.FirstWinning | src/tic_tac_toe.rs:59-92 | returns the first winning line in the order the checks are made, or none when no line is complete |
| Lines.OrderCells | src/tic_tac_toe.rs:59-92 | the eight lines only name cells 0 to 8 |
| TicTacToe.ConversionsAreInverse | src/tic_tac_toe.rs:10-26 | Piece→Player and Player→Piece are inverse bijections |
| TicTacToe.Other | src/tic_tac_toe.rs:114-117 | the next piece is always the other piece |
| TicTacToe.MoveAt | src/tic_tac_toe.rs:105 | the move for cell i is Place(i % 3, i / 3), and it addresses cell i again |
| TicTacToe.LegalUpTo | src/tic_tac_toe.rs:101-109 | the moves are listed in increasing cell order, exactly for the empty cells |
| TicTacToe.LegalMovesExactly | src/tic_tac_toe.rs:101-109 | a move is legal iff it addresses an empty cell |
| TicTacToe.Outcome | src/tic_tac_toe.rs:58-99 | Win or Loss iff some line is complete, Win iff the first complete line holds the player's piece, None iff no line is complete and a cell is empty, otherwise Draw |
| TicTacToe.OutcomeAntisymmetric | src/tic_tac_toe.rs:58-99 | the two players see opposite results, and the same Draw or None |
| TicTacToe.RulesTerminate | src/tic_tac_toe.rs:101-118 | every legal move lowers the count of empty cells, so the engine's playouts end |
| TicTacToe.ApplyConsumesMove | src/tic_tac_toe.rs:111-118 | applying a legal move fills exactly that cell with the mover's piece, hands the turn over and removes the move from the legal moves |
| TicTacToe.Board.Empty | src/tic_tac_toe.rs:41-56 | the start board has only an O in the centre, and X moves first |
| TicTacToe.Board.AllLegalMoves | src/tic_tac_toe.rs:101-109 | the loop returns the legal moves of the current board |
| TicTacToe.Board.ApplyMove | src/tic_tac_toe.rs:111-118 | the new board is the old board with the move applied |
| UltimateTicTacToe.ThreeWinningCells | src/ultimate_tic_tac_toe/mod.rs:427-429 | true iff the three cells hold the same piece, X or O |
| UltimateTicTacToe.ThreeWinningBoards | src/ultimate_tic_tac_toe/mod.rs:431-436 | true iff the three sub-boards are all won by the same player |
| UltimateTicTacToe.SplitRoundTrip | src/ultimate_tic_tac_toe/mod.rs:254-257 | splitting a global coordinate into (sub-board, cell) and joining them back gives the same coordinates |
| UltimateTicTacToe.SubBoardLegalMoves | src/ultimate_tic_tac_toe/mod.rs:341-352 | the loop lists the empty cells of a sub-board in index order |
| UltimateTicTacToe.Updated | src/ultimate_tic_tac_toe/mod.rs:359-404 | a sub-board's state becomes won by a player iff that player has a line, Draw iff it is full without a line, and is unchanged otherwise |
| UltimateTicTacToe.ApplySub | src/ultimate_tic_tac_toe/mod.rs:354-357 | placing a piece changes one cell, then recomputes the state |
| UltimateTicTacToe.States | src/ultimate_tic_tac_toe/mod.rs:163-244 | the nine sub-board states, in order |
| UltimateTicTacToe.Outcome | src/ultimate_tic_tac_toe/mod.rs:163-244 | Win/Loss iff some line of sub-boards is won, Win iff the first such line is the player's, None iff no line is won and some sub-board is not finished |
| UltimateTicTacToe.OutcomeAntisymmetric | src/ultimate_tic_tac_toe/mod.rs:163-244 | the two players see opposite results |
| UltimateTicTacToe.LegalMovesExactly | src/ultimate_tic_tac_toe/mod.rs:246-276 | a move is listed iff the game is not over, its sub-board is the forced one (when one is forced) or any open sub-board otherwise, and its cell is empty |
| UltimateTicTacToe.ApplyEffect | src/ultimate_tic_tac_toe/mod.rs:278-296 | a move fills one cell of one sub-board, passes the turn, and forces the matching sub-board iff that sub-board is still open |
| UltimateTicTacToe.RulesTerminate | src/ultimate_tic_tac_toe/mod.rs:246-296 | every legal move lowers the number of empty cells, so playouts end |
| UltimateTicTacToe.Board.Empty | src/ultimate_tic_tac_toe/mod.rs:147-161 | nine empty open sub-boards, none forced, Guest to move |
| UltimateTicTacToe.Board.AllLegalMoves | src/ultimate_tic_tac_toe/mod.rs:246-276 | the loops return LegalMoves of the current board |
| UltimateTicTacToe.Board.ApplyMove | src/ultimate_tic_tac_toe/mod.rs:278-296 | the new board is Apply(old board, move) |
| UltimateTicTacToe.Board.GetRandomMove | src/ultimate_tic_tac_toe/mod.rs:302-305 | returns the legal move at the drawn index |
| Played.FirstOf | src/flower_skud/board.rs:71-79 | finds the first reserve entry for a tile, and only an entry for that tile |
| Played.DecrementFirst | src/flower_skud/board.rs:71-79 | only the first matching entry changes, and its count drops by one |
| Played.DecrementFirstInPlace | src/flower_skud/board.rs:71-79 | the in-place search and decrement computes DecrementFirst |
| Played.DecrementLowersTotal | src/flower_skud/board.rs:71-79 | taking one tile lowers the reserve total by exactly one |
| Played.MoveFirst | src/flower_skud/board.rs:292-311 | only the first played tile standing on the start point moves, to the end point |
| Played.MoveFirstInPlace | src/flower_skud/board.rs:292-311 | the in-place search and update computes MoveFirst |
| FlowerTypes.ClashesSymmetricIrreflexive | src/flower_skud/other.rs:16-28 | clashing is symmetric and no tile clashes with itself |
| FlowerTypes.ClashingPairs | src/flower_skud/other.rs:19-25 | exactly Rose–Jasmine, Chrysanthemum–Jasmine and Rhododendron–White Jade clash; Lily clashes with nothing |
| FlowerTypes.NewAsWritten | src/flower_skud/other.rs:52-62 | the constructor as written accepts exactly the points its bound check passes, which has no lower bound |
| FlowerTypes.New | src/flower_skud/other.rs:52-62 | the corrected constructor accepts exactly the board points, and agrees with the written one wherever it accepts |
| FlowerTypes.ValueOfNew | src/flower_skud/other.rs:64-66 | `value` returns the coordinates a position was made from |
| FlowerTypes.Add | src/flower_skud/other.rs:68-75 | the corrected step, built on New: a step is one unit in its direction and is defined iff it stays on the board (the written `add`, AddAsWritten, also yields (−9, y) and (x, −9)) |
| FlowerTypes.GatesAreValid | src/flower_skud/other.rs:45-50 | the four gates are board points |
| FlowerTypes.OffsetInjective | src/flower_skud/grid.rs:34-35 | on the board the offset (x + 8) + 17 (y + 8) lies in 0 .. 288 and distinct points get distinct cells |
| FlowerTypes.StepOffTheBoard | src/flower_skud/other.rs:68-75 | stepping Left from gate (−8, 0) is accepted as written and yields (−9, 0), whose offset is that of (8, −1) |
| FlowerGrid.IndexChecksCompared | src/flower_skud/grid.rs:29-47 | index_mut's check passes exactly on board points, while index also lets (−9, 0) through |
| FlowerGrid.IndexAsWritten | src/flower_skud/grid.rs:29-37 | in a debug build, `index` returns a cell exactly for the board points, the cell at offset (x + 8) + 17 (y + 8); everywhere else it panics |
| FlowerGrid.IndexBeyondTheEdges | src/flower_skud/grid.rs:29-37 | (x, −9) with \|x\| ≤ 3 and (−9, y) with \|y\| ≤ 3 pass `index`'s bound check; below the south edge `index` panics in either build; beyond the west edge a debug build panics and a release build reads the cell of (8, y − 1) |
| FlowerGrid.Index | src/flower_skud/grid.rs:39-47 | a board point maps to a cell of the 289 |
| FlowerGrid.CreatedCell | src/flower_skud/grid.rs:9-20 | a cell of the created grid is occupied iff a played tile stands on it, and a host tile overwrites a guest tile |
| FlowerGrid.Grid.Create | src/flower_skud/grid.rs:9-20 | the loops fill the grid with the guest tiles, then the host tiles |
| FlowerGrid.EmptyGatesInOrder | src/flower_skud/grid.rs:22-27 | the filtered gates keep the order of the gate list |
| FlowerGrid.Grid.OpenGates | src/flower_skud/grid.rs:22-27 | a point is returned iff it is a gate with an empty cell, and the open gates come in `GATES` order |
| FlowerGrid.Grid.ApplyMove | src/flower_skud/grid.rs:49-66 | planting writes the mover's flower; arranging copies start to end and then empties start |
| FlowerGrid.ArrangingMovesOneTile | src/flower_skud/grid.rs:60-64 | arranging to a different point moves the tile and changes no other cell |
| FlowerMoves.MoveRange | src/flower_skud/mod.rs:19-23 | Rose and Jasmine move 3, Chrysanthemum and Lily 4, Rhododendron and White Jade 5 |
| FlowerMoves.IsLandableFor | src/flower_skud/mod.rs:107-133 | gates are never landable, points outside the inner diamond always are, red flowers are refused where x and y have opposite signs, and white flowers where they have the same sign |
| FlowerMoves.MidlinesAreNeutral | src/flower_skud/mod.rs:107-133 | every non-gate point on an axis is landable for every flower |
| FlowerMoves.FirstOccupied | src/flower_skud/mod.rs:84-87 | the walk stops on the first occupied point of the ray: every board point before it is empty, and None means every board point of the ray is empty |
| FlowerMoves.WalkToOccupied | src/flower_skud/mod.rs:84-87 | the walk loop computes FirstOccupied |
| FlowerMoves.CreatesAClash | src/flower_skud/mod.rs:77-105 | true iff, looking from the end point in some direction over empty points, the first tile met is not on a gate and clashes with the moving tile |
| FlowerMoves.ReachableMonotone | src/flower_skud/mod.rs:36-54 | a point reachable in m steps is reachable in any n ≥ m steps |
| FlowerMoves.ReachableStep | src/flower_skud/mod.rs:36-54 | an empty neighbour of a point reachable in n steps is reachable in n + 1 |
| FlowerMoves.FourStepsWeighLess | src/flower_skud/mod.rs:36-54 | replacing one queue entry by four entries with one step fewer lowers the queue's weight, so the flood fill terminates |
| FlowerMoves.SouthGateStepPanics | src/flower_skud/mod.rs:27-43 | from a tile on the south gate (0, −8) the written `add` steps Down to (0, −9) and `index` panics there, while the corrected Add stops at the edge |
| FlowerMoves.FloodFill | src/flower_skud/mod.rs:27-54 | every point the breadth-first fill marks is empty and reachable from the start within the range through empty points |
| FlowerMoves.AllPossibilities | src/flower_skud/mod.rs:14-75 | every returned move arranges the tile from its start to a reachable, empty, landable, clash-free point, and no move is listed twice |
| FlowerBoard.CrossingMeansOppositeSides | src/flower_skud/board.rs:93-96 | a harmony crosses the centre iff its ends lie on opposite sides of an axis |
| FlowerBoard.PairsOf | src/flower_skud/board.rs:88-109 | a pair is listed for an owner iff that owner has that harmony |
| FlowerBoard.PairsPartition | src/flower_skud/board.rs:88-109 | every harmony goes to exactly one of the two owners |
| FlowerBoard.SortHarmonies | src/flower_skud/board.rs:88-109 | the loop splits the harmonies by owner and counts each owner's crossings |
| FlowerBoard.RingsLift | src/flower_skud/board.rs:119-145 | extending a partial ring by one harmony keeps every ring completed from it well formed |
| FlowerBoard.Rings | src/flower_skud/board.rs:111-147 | every ring found is closed by a harmony, keeps the points it was started from and has at most as many extra points as harmonies remained |
| FlowerBoard.FinishRing | src/flower_skud/board.rs:111-147 | the recursive loop computes Rings |
| FlowerBoard.CentreTestIgnoresRotation | src/flower_skud/board.rs:149-156 | the centre test sums coordinates, so it does not depend on where the ring starts |
| FlowerBoard.SideHasCentreRing | src/flower_skud/board.rs:158-192 | the pop-and-search loop computes HasCentreRing, the recursive form of the same search over the owner's harmonies (that it finds every ring that could be built is not proved; see Left out) |
| FlowerBoard.RingRule | src/flower_skud/board.rs:181-191 | when either side has a centre ring the result is Draw iff both sides have one, and otherwise Win iff the perspective's side is the one with the ring |
| FlowerBoard.ReserveRule | src/flower_skud/board.rs:194-227 | without rings, an empty reserve ends the game: the side with more crossing harmonies wins, equal counts draw |
| FlowerBoard.FiftyMoveRule | src/flower_skud/board.rs:229-232 | otherwise fifty moves without planting draw, and fewer continue the game |
| FlowerBoard.OutcomeAntisymmetric | src/flower_skud/board.rs:81-233 | the two perspectives see opposite results |
| FlowerBoard.InitialReserveTotal | src/flower_skud/board.rs:14-37 | each reserve starts with 18 tiles |
| FlowerBoard.InitialReserveStock | src/flower_skud/board.rs:14-37 | each of the six flowers is in stock, with three tiles and one entry each |
| FlowerBoard.NextOf | src/flower_skud/board.rs:271-277 | Guest moves on even move counts, Host on odd ones |
| FlowerBoard.TurnsAlternate | src/flower_skud/board.rs:271-277 | each move hands the turn to the other player |
| FlowerBoard.ArrangingMoves | src/flower_skud/board.rs:245-249 | each arranging move starts at a played tile of the mover and is allowed by the movement rules |
| FlowerBoard.PlantingMoves | src/flower_skud/board.rs:251-257 | every listed move plants a flower in stock on an open gate, and every such pair of gate and flower is listed |
| FlowerBoard.Board.Empty | src/flower_skud/board.rs:14-37 | no tiles played, full reserves, counters at zero |
| FlowerBoard.Board.NextToMove | src/flower_skud/board.rs:271-277 | the player to move follows the parity of the move count |
| FlowerBoard.Board.GuestAddTile | src/flower_skud/board.rs:71-79 | the tile is appended to the guest's played tiles and taken from the guest's reserve; nothing else changes |
| FlowerBoard.Board.HostAddTile | src/flower_skud/board.rs:261-269 | the same for the host |
| FlowerBoard.Board.Finished | src/flower_skud/board.rs:81-233 | computes Outcome from the harmonies, reserves and move counter |
| FlowerBoard.Board.AllLegalMoves | src/flower_skud/board.rs:235-259 | no moves once the game is decided; otherwise sound arranging moves for the mover's tiles and every planting at an open gate with stock |
| FlowerBoard.Board.ApplyMove | src/flower_skud/board.rs:279-314 | planting adds the mover's tile and resets the counter; arranging moves the mover's first tile on the start point and increments the counter; the move count always goes up by one |
| FlowerBoard.MoveFirstStaysOnBoard | src/flower_skud/board.rs:292-311 | arranging to a board point keeps every played tile on the board |
| FlowerBoard.PlantingUsesOneTile | src/flower_skud/board.rs:281-291 | planting lowers the mover's reserve total by one |
| SkudPaiSho.IndexAsWritten | src/skud_pai_sho.rs:37-45 | when the i8 index does not panic, its bound check passed and the result is (x + 8) + 17 (y + 8), a cell from 0 to 288 |
| SkudPaiSho.IndexBelowTheBoard | src/skud_pai_sho.rs:37-45 | (0, −9) passes the bound check, its offset is −9, and the access panics |
| SkudPaiSho.IndexOverflows | src/skud_pai_sho.rs:42-43 | every point with y ≥ 0 that passes the bound check, the centre (0, 0) included, overflows i8 |
| SkudPaiSho.Index | src/skud_pai_sho.rs:37-54 | the corrected index maps a board point to a cell of the 289 |
| SkudPaiSho.IndexInjective | src/skud_pai_sho.rs:37-54 | distinct board points get distinct cells, and the written index agrees with the corrected one wherever it does not overflow |
| SkudPaiSho.WheelAsWrittenShape | src/skud_pai_sho.rs:234-259 | as written, a wheel keeps y and moves x by at most one; a tile moves iff one of the four guards holds, and no two guards hold together |
| SkudPaiSho.WheelAsWrittenCollides | src/skud_pai_sho.rs:234-259 | as written, the left and right neighbours both land on the wheel, and a corner leaves the ring |
| SkudPaiSho.RotateIsATurn | src/skud_pai_sho.rs:234-259 | the corrected rotation maps the eight points around the wheel onto themselves, moves each of them and no other point, and is injective |
| SkudPaiSho.WheelATile | src/skud_pai_sho.rs:234-259 | the corrected wheel step: under the source's four guards the tile turns one place along the ring (Rotate); the written branches shift x only (see Left out) |
| SkudPaiSho.WheelEach | src/skud_pai_sho.rs:143-161 | each played position is replaced by its corrected rotation, in order, tiles unchanged |
| SkudPaiSho.Applied | src/skud_pai_sho.rs:107-232 | the corrected move (host arranging on the host's list, corrected wheel): it raises the move count by one and keeps the number of reserve entries |
| SkudPaiSho.PlantingGoesToMover | src/skud_pai_sho.rs:109-116 | a planted flower joins the played tiles of the player whose turn it is |
| SkudPaiSho.ArrangingMovesOneTile | src/skud_pai_sho.rs:119-126 | the corrected arranging step: it moves the mover's own first tile on the start point and leaves the other side's tiles alone (as written, Host moves a guest tile; see HostArrangingMovesGuestTile) |
| SkudPaiSho.GuestBoatBonus | src/skud_pai_sho.rs:131-142 | a guest Boat bonus moves the guest's first tile on the boat's point to the pushed position, and the Boat joins the host's list, drawn from the host's reserve |
| SkudPaiSho.WheelBonus | src/skud_pai_sho.rs:143-161 | a Wheel bonus turns the mover's played tiles with the corrected rotation (on Host's turn including the wheel itself) and leaves the other side's tiles alone |
| SkudPaiSho.HostArrangingMovesGuestTile | src/skud_pai_sho.rs:174-179 | as written, a host arranging move relocates a guest tile and leaves the host's tile in place |
| SkudPaiSho.Board.GuestAddTile | src/skud_pai_sho.rs:58-66 | the new state is GuestAdd of the old one |
| SkudPaiSho.Board.HostAddTile | src/skud_pai_sho.rs:97-105 | the new state is HostAdd of the old one |
| SkudPaiSho.Board.ApplyBonus | src/skud_pai_sho.rs:127-227 | the new state is the bonus applied to the old one, with the corrected wheel |
| SkudPaiSho.Board.ApplyMove | src/skud_pai_sho.rs:107-232 | the new state is Applied(old state, move), the corrected move |

## Left out

- The exploration term of the selection score, `sqrt(2 ln(parent) / child)`, is a parameter `explore` of the model. Real numbers have no logarithm or square root in Dafny. The win-rate part of the score is modelled exactly.
- `thread_rng` is a caller-supplied stream `rng: nat -> nat`. The source draws uniformly below `len`; the model uses `rng(t) % len`. `get_random_move` takes the drawn index as its argument.
- The `Rc`/`Weak` links between nodes are indices into an arena owned by `Mcts.Tree`. The upgrade of a `Weak` to a parent never fails in the model, because nodes are never freed.
- Mcts.Simulation: the rollout is stated for an abstract game. The Flower Skud grid passed alongside the board (`grid.apply_move`) is not threaded through it.
- The Flower Skud board is not an instance of the engine's game record. Its `finished` also needs the harmonies and its `all_legal_moves` the grid. Tic-tac-toe and ultimate tic-tac-toe provide `Rules` instances with termination measures.
- `list_all_harmonies` is not part of this model. `finished` takes the list of harmonies as an input.
- `is_gate` and `Direction::ALL` are not part of this model. They are taken to be membership of the four gates and the order Up, Down, Left, Right.
- Add (FlowerTypes.Add): it is the corrected step, with a lower bound on both coordinates. The written `add` (AddAsWritten) also accepts (x, −9) for |x| ≤ 3 and (−9, y) for |y| ≤ 3, and `index` then panics (in a release build the west-edge points read the cell of (8, y − 1)); see FlowerGrid.IndexBeyondTheEdges and FlowerMoves.SouthGateStepPanics.
- FirstOccupied (FlowerMoves.FirstOccupied): the walk uses the corrected Add and stops at the south and west edges. As written, a Down or Left walk that runs empty to the edge steps off it and `index` panics (debug) or reads an aliased cell (release, west edge).
- WalkToOccupied (FlowerMoves.WalkToOccupied): the same corrected edge behaviour as FirstOccupied.
- CreatesAClash (FlowerMoves.CreatesAClash): it returns a verdict where the written walk panics: any end point whose Down ray is empty down to (x, −8) with |x| ≤ 3, or whose Left ray is empty to (−8, y) with |y| ≤ 3.
- FloodFill (FlowerMoves.FloodFill): the fill uses the corrected Add. As written, a queued Down step from (x, −8) with |x| ≤ 3, or a Left step from (−8, y) with |y| ≤ 3, leaves the board. `index` then panics: in either build at the south edge, in a debug build at the west edge. A tile on the south gate always queues such a step.
- AllPossibilities (FlowerMoves.AllPossibilities): it returns moves where the written function panics, as described for FloodFill and CreatesAClash.
- ArrangingMoves (FlowerBoard.ArrangingMoves): it inherits the corrected edge behaviour of AllPossibilities.
- AllLegalMoves (FlowerBoard.Board.AllLegalMoves): it inherits the corrected edge behaviour of AllPossibilities. As written, `all_legal_moves` panics whenever the mover has a tile on the south gate.
- FlowerMoves.FloodFill: it proves that every marked point is reachable (soundness). It does not prove that every point reachable within the range is marked.
- FlowerMoves.AllPossibilities: the source collects moves from a hash map, so the order of the result is left unspecified. The contract states soundness and distinctness, not completeness.
- FlowerBoard.Board.AllLegalMoves: arranging moves are stated soundly (see the two lines above), not as a complete list.
- FlowerBoard.Rings: ring search is stated as soundness (every ring found is closed and well formed), not as finding every ring.
- FlowerBoard.SideHasCentreRing: it is proved equal to HasCentreRing, the same search written recursively. That this search finds a centre ring whenever the owner's harmonies could form one is not proved.
- Counter widths are unbounded here: `u32` node counters, the `i16` move counters, the `u8` reserve counts, and the i8 coordinate sums of `ring_contains_center` (src/flower_skud/board.rs:149-156), which overflow for a ring of 16 or more points on one side. Overflow of these is not modelled.
- Decrementing a `u8` reserve count of zero panics in the source. Callers must establish `CanDecrement`, which models that panic as a precondition.
- Board getters `move_count` and `moves_since_planting` return their field and carry no contract.
- Skud Pai Sho's `finished` and `all_legal_moves` are `todo!()` in the source. They are not modelled.
- Skud Pai Sho's `Grid::create` fills an empty vector and indexes it, so it can only panic. Grid reads are modelled with the corrected `Index`.
- WheelATile (SkudPaiSho.WheelATile): it carries the corrected wheel step, which turns the tile along the ring (Rotate). The written `wheel_a_tile` changes only x: x + 1 below, x − 1 above, x + 1 on the left, x − 1 on the right (WheelAsWritten, WheelAsWrittenCollides).
- WheelEach (SkudPaiSho.WheelEach): it turns every tile with the corrected wheel step of WheelATile, not the written one.
- WheelBonus (SkudPaiSho.WheelBonus): it states the Wheel bonus with the corrected wheel step of WheelATile, not the written one.
- Applied (SkudPaiSho.Applied): it carries two corrections. On Host's turn the arranging step moves the host's own tile, while the written code searches `played_tiles_guest` (HostArrangingAsWritten). The Wheel bonus uses the corrected wheel step.
- ArrangingMovesOneTile (SkudPaiSho.ArrangingMovesOneTile): it is stated for the corrected host step. As written, a host arranging move relocates a guest tile and leaves the host's tile (HostArrangingMovesGuestTile).
- Board.ApplyBonus (SkudPaiSho.Board.ApplyBonus): its Wheel branch uses the corrected wheel step.
- Board.ApplyMove (SkudPaiSho.Board.ApplyMove): it computes Applied and carries both of its corrections.
- The i8 arithmetic of the Skud Pai Sho wheel (`x ± 1`, `y ± 1`) is not modelled as overflowing. Board coordinates stay within −8 .. 8.
- A guest's accent bonus tile is added to the host's played tiles in the source. It is modelled as written.
- `extract_board` is `ExtractBoard`. It has no contract of its own; its use is stated by `Mcts.AttachMoves` and `Mcts.Tree.Expansion`.
- Display and Debug printing, `create_test`, `println!` debug output, `main.rs` and the other binaries are outside the model.

## Findings

| source | as written | input that shows it | evidently intended | confidence | as-written member | corrected member |
|---|---|---|---|---|---|---|
| src/flower_skud/other.rs:52-62 | `out_of_bound` checks only `x > 8` and `y > 8` (and the corner cut), not `x < -8` or `y < -8` | a tile on the south gate (0, −8): the flood fill steps Down to (0, −9), and `index` panics, so `all_legal_moves` panics. `Position(-8, 0).add(Left)` likewise yields (−9, 0), whose offset equals that of (8, −1) | reject both coordinates below −8 | not executed | FlowerMoves.SouthGateStepPanics | FlowerTypes.Add |
| src/skud_pai_sho.rs:174-179 | the host's arranging move searches `played_tiles_guest` | a guest and a host tile on the same point. A host arranging move from there relocates the guest tile | search `played_tiles_host` | not executed | SkudPaiSho.HostArrangingMovesGuestTile | SkudPaiSho.ArrangingMovesOneTile |
| src/skud_pai_sho.rs:234-259 | the four wheel branches change x by ±1 only, sometimes towards the wheel | the tiles at (w.x − 1, w.y) and (w.x + 1, w.y) both move onto the wheel at w | rotate the eight surrounding points one step around the wheel | not executed | SkudPaiSho.WheelAsWrittenCollides | SkudPaiSho.RotateIsATurn |
| src/skud_pai_sho.rs:37-45 | the index is computed as `(x + 8) + (y + 8) * 17` in i8, and its bound check has no lower bound | the centre (0, 0): 8 × 17 = 136 overflows i8. (0, −9) passes the check, and its offset −9 cast to usize is out of range | compute the offset in usize and reject coordinates below −8 | not executed | SkudPaiSho.IndexOverflows | SkudPaiSho.IndexInjective |
