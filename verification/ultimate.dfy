/**
 * Ultimate tic-tac-toe (src/ultimate_tic_tac_toe/mod.rs).
 *
 * Nine sub-boards of nine cells.  A global move (x, y), 0 <= x, y < 9, lies
 * in sub-board x/3 + 3(y/3) at local cell x%3 + 3(y%3); the local cell a
 * move is played on names the sub-board the opponent is forced into, unless
 * that sub-board is already decided.
 *
 * A sub-board is a value stored in the board's array; its apply_move/update
 * are functions whose result the board writes back into its slot.
 */
module UltimateTicTacToe {
  import opened Optional
  import opened Mcts
  import Lines

  datatype Cell = Empty | X | O

  /** State of a sub-board (`NotFinished`, `Draw`, `Win(player)` in the source). */
  datatype Status = NotFinished | Drawn | Won(winner: Player)

  datatype SubBoard = SubBoard(state: Status, cells: seq<Cell>)

  datatype Move = Move(x: nat, y: nat)

  function ThreeWinningCells(a: Cell, b: Cell, c: Cell): (r: bool)
    ensures r <==> (a == X || a == O) && a == b && b == c
  {
    a != Empty && a == b && b == c
  }

  /** Only three sub-boards won by the same player count; drawn ones never do. */
  function ThreeWinningBoards(a: Status, b: Status, c: Status): (r: bool)
    ensures r <==> a.Won? && a == b && b == c
  {
    match (a, b, c)
    case (Won(pa), Won(pb), Won(pc)) => pa == pb && pb == pc
    case _ => false
  }

  /** The mark the player to move writes: O for the host, X for the guest. */
  function CellOf(p: Player): (c: Cell)
    ensures c != Empty
  {
    match p
    case Host => O
    case Guest => X
  }

  /** The owner of a mark; the inverse of CellOf. */
  function WinnerOf(c: Cell): (p: Player)
    requires c != Empty
    ensures CellOf(p) == c
  {
    match c
    case X => Guest
    case O => Host
  }

  const EmptySubBoard: SubBoard := SubBoard(NotFinished, [Empty, Empty, Empty, Empty, Empty, Empty, Empty, Empty, Empty])

  // ---------------------------------------------------------------------
  // Coordinates
  // ---------------------------------------------------------------------

  function SubIndex(m: Move): nat
  {
    m.x / 3 + (m.y / 3) * 3
  }

  function CellIndex(m: Move): nat
  {
    m.x % 3 + (m.y % 3) * 3
  }

  /** Offset of a local move (0 <= x, y < 3) within its sub-board. */
  function Offset(l: Move): nat
  {
    l.x + l.y * 3
  }

  /** The local move on cell i of a sub-board. */
  function LocalMove(i: nat): (l: Move)
    ensures l.x < 3 && Offset(l) == i
  {
    Move(i % 3, i / 3)
  }

  /** A local move of sub-board k, as a global move. */
  function Shift(l: Move, k: nat): Move
  {
    Move(l.x + (k % 3) * 3, l.y + (k / 3) * 3)
  }

  lemma Split3(a: nat, b: nat)
    requires a < 3
    ensures (a + b * 3) / 3 == b && (a + b * 3) % 3 == a
  {
  }

  lemma Join3(x: nat)
    ensures x == x % 3 + (x / 3) * 3 && x % 3 < 3
  {
  }

  /** Local to global and back gives the same sub-board and cell. */
  lemma ShiftRoundTrip(l: Move, k: nat)
    requires l.x < 3 && l.y < 3 && k < 9
    ensures Shift(l, k).x < 9 && Shift(l, k).y < 9
    ensures SubIndex(Shift(l, k)) == k && CellIndex(Shift(l, k)) == Offset(l)
  {
    Join3(k);
    Split3(l.x, k % 3);
    Split3(l.y, k / 3);
  }

  /** Global to local and back gives the same move. */
  lemma SplitRoundTrip(m: Move)
    requires m.x < 9 && m.y < 9
    ensures SubIndex(m) < 9 && CellIndex(m) < 9
    ensures Shift(LocalMove(CellIndex(m)), SubIndex(m)) == m
  {
    Join3(m.x);
    Join3(m.y);
    Split3(m.x / 3, m.y / 3);
    Split3(m.x % 3, m.y % 3);
  }

  // ---------------------------------------------------------------------
  // Sub-boards (src/ultimate_tic_tac_toe/mod.rs:327-405)
  // ---------------------------------------------------------------------

  /**
   * The local moves the loop of SubBoard::all_legal_moves has collected
   * after cells 0 .. n-1: one per empty cell, in cell order.
   */
  function SubLegalUpTo(cells: seq<Cell>, n: nat): (moves: seq<Move>)
    requires n <= |cells| == 9
    ensures forall k :: 0 <= k < |moves| ==>
      moves[k].x < 3 && Offset(moves[k]) < n && cells[Offset(moves[k])] == Empty
    ensures forall i :: 0 <= i < n && cells[i] == Empty ==> LocalMove(i) in moves
  {
    if n == 0 then []
    else SubLegalUpTo(cells, n - 1) + (if cells[n - 1] == Empty then [LocalMove(n - 1)] else [])
  }

  function SubLegal(cells: seq<Cell>): seq<Move>
    requires |cells| == 9
  {
    SubLegalUpTo(cells, 9)
  }

  method SubBoardLegalMoves(sub: SubBoard) returns (list: seq<Move>)
    requires |sub.cells| == 9
    ensures list == SubLegal(sub.cells)
  {
    list := [];
    for index := 0 to 9
      invariant list == SubLegalUpTo(sub.cells, index)
    {
      if sub.cells[index] == Empty {
        list := list + [LocalMove(index)];
      }
    }
  }

  /**
   * update: the first line (in the checking order) of three equal marks
   * decides the sub-board for that mark's owner; a full sub-board without
   * such a line is drawn; otherwise nothing changes.
   */
  function Updated(sub: SubBoard): (r: SubBoard)
    requires |sub.cells| == 9
    ensures r.cells == sub.cells
    ensures (exists j :: 0 <= j < 8 && Lines.LineWins(sub.cells, ThreeWinningCells, j)) ==>
      r.state.Won? &&
      exists j :: 0 <= j < 8 && Lines.LineWins(sub.cells, ThreeWinningCells, j)
                  && sub.cells[Lines.Order[j].0] == CellOf(r.state.winner)
    ensures (forall j :: 0 <= j < 8 ==> !Lines.LineWins(sub.cells, ThreeWinningCells, j)) ==>
      if forall i :: 0 <= i < 9 ==> sub.cells[i] != Empty then r.state == Drawn else r == sub
  {
    match Lines.FirstWinning(sub.cells, ThreeWinningCells, 0)
    case Some(j) =>
      Lines.OrderCells(j);
      SubBoard(Won(WinnerOf(sub.cells[Lines.Order[j].0])), sub.cells)
    case None =>
      if forall i :: 0 <= i < 9 ==> sub.cells[i] != Empty then SubBoard(Drawn, sub.cells) else sub
  }

  /** SubBoard::apply_move: write the mark on cell i, then update the state. */
  function ApplySub(sub: SubBoard, i: nat, c: Cell): (r: SubBoard)
    requires |sub.cells| == 9 && i < 9
    ensures r.cells == sub.cells[i := c]
  {
    Updated(sub.(cells := sub.cells[i := c]))
  }

  // ---------------------------------------------------------------------
  // The whole board as a value
  // ---------------------------------------------------------------------

  datatype Position = Position(subBoards: seq<SubBoard>, forced: Option<nat>, next: Player)

  predicate WellFormed(s: Position)
  {
    && |s.subBoards| == 9
    && (forall k :: 0 <= k < 9 ==> |s.subBoards[k].cells| == 9)
    && (s.forced.Some? ==> s.forced.value < 9)
  }

  function States(subs: seq<SubBoard>): (states: seq<Status>)
    ensures |states| == |subs|
    ensures forall k :: 0 <= k < |subs| ==> states[k] == subs[k].state
  {
    seq(|subs|, k requires 0 <= k < |subs| => subs[k].state)
  }

  /**
   * finished(player): the first line of three sub-boards won by the same
   * player decides, Win when that is `player`; otherwise the game goes on
   * while some sub-board is undecided, and is a draw when none is.
   */
  function Outcome(subs: seq<SubBoard>, player: Player): (r: Option<Output>)
    requires |subs| == 9
    ensures (r == Some(Win) || r == Some(Loss))
      <==> exists j :: 0 <= j < 8 && Lines.LineWins(States(subs), ThreeWinningBoards, j)
    ensures r == Some(Win) <==>
      exists j :: 0 <= j < 8 && Lines.LineWins(States(subs), ThreeWinningBoards, j)
                  && (forall i :: 0 <= i < j ==> !Lines.LineWins(States(subs), ThreeWinningBoards, i))
                  && subs[Lines.Order[j].0].state == Won(player)
    ensures r == None <==>
      (forall j :: 0 <= j < 8 ==> !Lines.LineWins(States(subs), ThreeWinningBoards, j))
      && (exists k :: 0 <= k < 9 && subs[k].state == NotFinished)
  {
    var states := States(subs);
    match Lines.FirstWinning(states, ThreeWinningBoards, 0)
    case Some(j) =>
      Lines.OrderCells(j);
      if states[Lines.Order[j].0] == Won(player) then Some(Win) else Some(Loss)
    case None =>
      if exists k :: 0 <= k < 9 && subs[k].state == NotFinished then None else Some(Draw)
  }

  /** The result seen by the host is the mirror of the result seen by the guest. */
  lemma OutcomeAntisymmetric(subs: seq<SubBoard>)
    requires |subs| == 9
    ensures Outcome(subs, Host) == Some(Win) <==> Outcome(subs, Guest) == Some(Loss)
    ensures Outcome(subs, Host) == Some(Loss) <==> Outcome(subs, Guest) == Some(Win)
    ensures Outcome(subs, Host) == Some(Draw) <==> Outcome(subs, Guest) == Some(Draw)
    ensures Outcome(subs, Host) == None <==> Outcome(subs, Guest) == None
  {
    var states := States(subs);
    match Lines.FirstWinning(states, ThreeWinningBoards, 0)
    case Some(j) =>
      assert Lines.LineWins(states, ThreeWinningBoards, j);
      Lines.OrderCells(j);
      var (a, b, c) := Lines.Order[j];
      assert ThreeWinningBoards(states[a], states[b], states[c]);
      var st := states[Lines.Order[j].0];
      assert st.Won? && (st.winner.Host? || st.winner.Guest?);
      assert Outcome(subs, Host) == (if st == Won(Host) then Some(Win) else Some(Loss));
      assert Outcome(subs, Guest) == (if st == Won(Guest) then Some(Win) else Some(Loss));
    case None =>
  }

  /** The local moves of sub-board k as global moves. */
  function Lift(moves: seq<Move>, k: nat): (r: seq<Move>)
    ensures |r| == |moves|
    ensures forall i :: 0 <= i < |moves| ==> r[i] == Shift(moves[i], k)
  {
    seq(|moves|, i requires 0 <= i < |moves| => Shift(moves[i], k))
  }

  /** The moves the unforced loop of all_legal_moves has collected after sub-boards 0 .. n-1. */
  function UnforcedUpTo(subs: seq<SubBoard>, n: nat): seq<Move>
    requires n <= |subs| && forall k :: 0 <= k < |subs| ==> |subs[k].cells| == 9
  {
    if n == 0 then []
    else UnforcedUpTo(subs, n - 1)
         + (if subs[n - 1].state == NotFinished then Lift(SubLegal(subs[n - 1].cells), n - 1) else [])
  }

  /**
   * all_legal_moves: nothing once the game is finished for the player to
   * move; otherwise the empty cells of the forced sub-board, or, with none
   * forced, the empty cells of every undecided sub-board.
   */
  function LegalMoves(s: Position): seq<Move>
  {
    if !WellFormed(s) || Outcome(s.subBoards, s.next).Some? then [] else Candidates(s)
  }

  /** The moves of a game still going: those of the forced sub-board, or of every undecided one. */
  function Candidates(s: Position): seq<Move>
    requires WellFormed(s)
  {
    match s.forced
    case Some(k) => Lift(SubLegal(s.subBoards[k].cells), k)
    case None => UnforcedUpTo(s.subBoards, 9)
  }

  /** Where a move may be played: on an empty cell, in the forced or an undecided sub-board. */
  ghost predicate Playable(s: Position, m: Move)
    requires WellFormed(s)
  {
    && m.x < 9 && m.y < 9
    && s.subBoards[SubIndex(m)].cells[CellIndex(m)] == Empty
    && match s.forced
       case Some(k) => SubIndex(m) == k
       case None => s.subBoards[SubIndex(m)].state == NotFinished
  }

  lemma {:induction false} LiftExactly(cells: seq<Cell>, k: nat, m: Move)
    requires |cells| == 9 && k < 9
    ensures m in Lift(SubLegal(cells), k) <==>
      m.x < 9 && m.y < 9 && SubIndex(m) == k && cells[CellIndex(m)] == Empty
  {
    var local := SubLegal(cells);
    if m in Lift(local, k) {
      var i :| 0 <= i < |local| && Lift(local, k)[i] == m;
      ShiftRoundTrip(local[i], k);
    }
    if m.x < 9 && m.y < 9 && SubIndex(m) == k && cells[CellIndex(m)] == Empty {
      SplitRoundTrip(m);
      var l := LocalMove(CellIndex(m));
      assert l in local;
      var j :| 0 <= j < |local| && local[j] == l;
      assert Lift(local, k)[j] == m;
    }
  }

  lemma {:induction false} UnforcedExactly(subs: seq<SubBoard>, n: nat, m: Move)
    requires n <= |subs| == 9 && forall k :: 0 <= k < 9 ==> |subs[k].cells| == 9
    ensures m in UnforcedUpTo(subs, n) <==>
      m.x < 9 && m.y < 9 && SubIndex(m) < n
      && subs[SubIndex(m)].state == NotFinished && subs[SubIndex(m)].cells[CellIndex(m)] == Empty
  {
    if n > 0 {
      UnforcedExactly(subs, n - 1, m);
      LiftExactly(subs[n - 1].cells, n - 1, m);
    }
  }

  lemma CandidatesExactly(s: Position, m: Move)
    requires WellFormed(s)
    ensures m in Candidates(s) <==> Playable(s, m)
  {
    if s.forced.Some? {
      ForcedExactly(s, m);
    } else {
      UnforcedExactly(s.subBoards, 9, m);
    }
  }

  lemma ForcedExactly(s: Position, m: Move)
    requires WellFormed(s) && s.forced.Some?
    ensures m in Candidates(s) <==> Playable(s, m)
  {
    var k := s.forced.value;
    LiftExactly(s.subBoards[k].cells, k, m);
  }

  /** A move is legal exactly when the game is not over and the move is playable. */
  lemma LegalMovesExactly(s: Position, m: Move)
    ensures m in LegalMoves(s) <==>
      WellFormed(s) && Outcome(s.subBoards, s.next).None? && Playable(s, m)
  {
    if WellFormed(s) {
      CandidatesExactly(s, m);
    }
  }

  /** apply_move on a board value. */
  function Apply(s: Position, m: Move): Position
  {
    var index := SubIndex(m);
    var i := CellIndex(m);
    if index < |s.subBoards| && i < 9 && |s.subBoards[index].cells| == 9 then
      var subs := s.subBoards[index := ApplySub(s.subBoards[index], i, CellOf(s.next))];
      Position(subs, if i < |subs| && subs[i].state == NotFinished then Some(i) else None, Opponent(s.next))
    else s
  }

  /**
   * A move writes the mover's mark on exactly one cell, leaves every other
   * sub-board alone, hands the turn over, and forces the sub-board named by
   * the local cell exactly when that sub-board is still undecided.
   */
  lemma ApplyEffect(s: Position, m: Move)
    requires WellFormed(s) && SubIndex(m) < 9
    ensures var r := Apply(s, m);
      && WellFormed(r)
      && r.subBoards[SubIndex(m)].cells == s.subBoards[SubIndex(m)].cells[CellIndex(m) := CellOf(s.next)]
      && (forall k :: 0 <= k < 9 && k != SubIndex(m) ==> r.subBoards[k] == s.subBoards[k])
      && r.next == Opponent(s.next)
      && (r.forced == Some(CellIndex(m)) <==> r.subBoards[CellIndex(m)].state == NotFinished)
      && (r.forced.None? <==> r.subBoards[CellIndex(m)].state != NotFinished)
  {
  }

  function EmptyCount(cells: seq<Cell>): nat
  {
    if cells == [] then 0 else (if cells[0] == Empty then 1 else 0) + EmptyCount(cells[1..])
  }

  function EmptyTotal(subs: seq<SubBoard>): nat
  {
    if subs == [] then 0 else EmptyCount(subs[0].cells) + EmptyTotal(subs[1..])
  }

  lemma {:induction false} EmptyCountFill(cells: seq<Cell>, i: nat, c: Cell)
    requires i < |cells| && cells[i] == Empty && c != Empty
    ensures EmptyCount(cells[i := c]) + 1 == EmptyCount(cells)
  {
    if i > 0 {
      assert cells[i := c][1..] == cells[1..][i - 1 := c];
      EmptyCountFill(cells[1..], i - 1, c);
    }
  }

  lemma {:induction false} EmptyTotalReplace(subs: seq<SubBoard>, k: nat, sub: SubBoard)
    requires k < |subs|
    ensures EmptyTotal(subs[k := sub]) + EmptyCount(subs[k].cells) == EmptyTotal(subs) + EmptyCount(sub.cells)
  {
    if k > 0 {
      assert subs[k := sub][1..] == subs[1..][k - 1 := sub];
      EmptyTotalReplace(subs[1..], k - 1, sub);
    }
  }

  /** The rules in the form the search engine takes. */
  function Rules(): Game<Position, Move>
  {
    Game(
      LegalMoves,
      Apply,
      (s: Position, player: Player) => if |s.subBoards| == 9 then Outcome(s.subBoards, player) else None,
      (s: Position) => s.next)
  }

  /** Every legal move fills one empty cell, so every game ends: the engine's rollout terminates. */
  lemma RulesTerminate()
    ensures Terminating(Rules(), (s: Position) => EmptyTotal(s.subBoards))
  {
    forall s: Position, m: Move | m in Rules().legalMoves(s)
      ensures EmptyTotal(Apply(s, m).subBoards) < EmptyTotal(s.subBoards)
    {
      LegalMovesExactly(s, m);
      SplitRoundTrip(m);
      var k, i := SubIndex(m), CellIndex(m);
      EmptyCountFill(s.subBoards[k].cells, i, CellOf(s.next));
      EmptyTotalReplace(s.subBoards, k, ApplySub(s.subBoards[k], i, CellOf(s.next)));
    }
  }

  // ---------------------------------------------------------------------
  // The board object (src/ultimate_tic_tac_toe/mod.rs:4-306)
  // ---------------------------------------------------------------------

  class Board {
    var subBoards: array<SubBoard>
    var forcedSubBoard: Option<nat>
    var next: Player

    ghost predicate Valid()
      reads this, subBoards
    {
      WellFormed(Snapshot())
    }

    function Snapshot(): Position
      reads this, subBoards
    {
      Position(subBoards[..], forcedSubBoard, next)
    }

    /** Nine empty undecided sub-boards, no forced sub-board, the guest to move. */
    constructor Empty()
      ensures Valid() && fresh(subBoards)
      ensures subBoards[..] == seq(9, k => EmptySubBoard)
      ensures forcedSubBoard == None && next == Guest
    {
      subBoards := new SubBoard[9](k => EmptySubBoard);
      forcedSubBoard := None;
      next := Guest;
    }

    function Finished(player: Player): Option<Output>
      requires Valid()
      reads this, subBoards
    {
      Outcome(subBoards[..], player)
    }

    method AllLegalMoves() returns (moves: seq<Move>)
      requires Valid()
      ensures moves == LegalMoves(Snapshot())
    {
      if Finished(next).Some? {
        return [];
      }
      assert WellFormed(Snapshot());
      if forcedSubBoard.Some? {
        var index := forcedSubBoard.value;
        var primeMoves := SubBoardLegalMoves(subBoards[index]);
        moves := Lift(primeMoves, index);
      } else {
        moves := [];
        for index := 0 to 9
          invariant moves == UnforcedUpTo(subBoards[..], index)
        {
          var sub := subBoards[index];
          if sub.state == NotFinished {
            var primeMoves := SubBoardLegalMoves(sub);
            moves := moves + Lift(primeMoves, index);
          }
        }
      }
    }

    /** Requires the move's sub-board index to be in range (the source indexes the array with it). */
    method ApplyMove(m: Move)
      requires Valid() && SubIndex(m) < 9
      modifies this, subBoards
      ensures Valid() && subBoards == old(subBoards)
      ensures Snapshot() == Apply(old(Snapshot()), m)
    {
      var c := CellOf(next);
      var index := SubIndex(m);
      var i := CellIndex(m);
      subBoards[index] := ApplySub(subBoards[index], i, c);
      forcedSubBoard := if subBoards[i].state == NotFinished then Some(i) else None;
      next := Opponent(next);
    }

    function NextToMove(): Player
      reads this
    {
      next
    }

    /**
     * A uniformly drawn legal move, the draw given as `pick`; the source
     * panics on an empty move list, hence the precondition.
     */
    method GetRandomMove(pick: nat) returns (r: Option<Move>)
      requires Valid() && pick < |LegalMoves(Snapshot())|
      ensures r.Some? && r.value in LegalMoves(Snapshot())
      ensures r == Some(LegalMoves(Snapshot())[pick])
    {
      var allMoves := AllLegalMoves();
      r := Some(allMoves[pick]);
    }
  }
}
