/**
 * Tic-tac-toe (src/tic_tac_toe.rs).  Cell (x, y) is stored at index x + 3y
 * of a nine-cell array; the board starts with O in the centre and X to move.
 */
module TicTacToe {
  import opened Optional
  import opened Mcts
  import Lines

  datatype Piece = X | O

  /** `Into<Player>`: X plays as the guest, O as the host. */
  function PlayerOf(p: Piece): Player
  {
    match p
    case X => Guest
    case O => Host
  }

  /** `From<Player>`. */
  function PieceOf(player: Player): Piece
  {
    match player
    case Host => O
    case Guest => X
  }

  lemma ConversionsAreInverse()
    ensures forall p: Piece :: PieceOf(PlayerOf(p)) == p
    ensures forall pl: Player :: PlayerOf(PieceOf(pl)) == pl
  {
  }

  /** The piece that moves after p. */
  function Other(p: Piece): (q: Piece)
    ensures q != p
    ensures PlayerOf(q) == Opponent(PlayerOf(p))
  {
    match p
    case X => O
    case O => X
  }

  type Cell = Option<Piece>

  datatype Move = Place(x: nat, y: nat)

  function Index(m: Move): nat
  {
    m.x + 3 * m.y
  }

  /** The move that places on cell i. */
  function MoveAt(i: nat): (m: Move)
    ensures Index(m) == i && m.x < 3
  {
    Place(i % 3, i / 3)
  }

  predicate WinningThree(a: Cell, b: Cell, c: Cell)
  {
    a.Some? && a == b && b == c
  }

  const EmptyCells: seq<Cell> := [None, None, None, None, Some(O), None, None, None, None]

  /**
   * The moves the loop of all_legal_moves has collected after looking at
   * cells 0 .. n-1: one per empty cell, in cell order.
   */
  function LegalUpTo(cells: seq<Cell>, n: nat): (moves: seq<Move>)
    requires n <= |cells|
    ensures forall k :: 0 <= k < |moves| ==>
      Index(moves[k]) < n && moves[k].x < 3 && cells[Index(moves[k])].None?
    ensures forall i :: 0 <= i < n && cells[i].None? ==> MoveAt(i) in moves
    ensures forall k, l :: 0 <= k < l < |moves| ==> Index(moves[k]) < Index(moves[l])
  {
    if n == 0 then []
    else LegalUpTo(cells, n - 1) + (if cells[n - 1].None? then [MoveAt(n - 1)] else [])
  }

  /** The legal moves of a board: a placement on each empty cell, in cell order. */
  function LegalMoves(cells: seq<Cell>): seq<Move>
  {
    if |cells| == 9 then LegalUpTo(cells, 9) else []
  }

  /** A legal move is exactly a placement on an empty cell; there is none iff the board is full. */
  lemma LegalMovesExactly(cells: seq<Cell>, m: Move)
    requires |cells| == 9
    ensures m in LegalMoves(cells) <==> m.x < 3 && Index(m) < 9 && cells[Index(m)].None?
    ensures LegalMoves(cells) == [] <==> forall i :: 0 <= i < 9 ==> cells[i].Some?
  {
    if m.x < 3 && Index(m) < 9 && cells[Index(m)].None? {
      assert m == MoveAt(Index(m));
    }
    if LegalMoves(cells) != [] {
      assert cells[Index(LegalMoves(cells)[0])].None?;
    }
  }

  /**
   * finished(player): the first line in the checking order that holds three
   * equal pieces decides, Win when they are the player's; without such a
   * line, the game goes on while some cell is empty and is a draw otherwise.
   */
  function Outcome(cells: seq<Cell>, player: Player): (r: Option<Output>)
    requires |cells| == 9
    ensures (r == Some(Win) || r == Some(Loss))
      <==> exists j :: 0 <= j < 8 && Lines.LineWins(cells, WinningThree, j)
    ensures r == Some(Win) <==>
      exists j :: 0 <= j < 8 && Lines.LineWins(cells, WinningThree, j)
                  && (forall i :: 0 <= i < j ==> !Lines.LineWins(cells, WinningThree, i))
                  && cells[Lines.Order[j].0] == Some(PieceOf(player))
    ensures r == None <==>
      (forall j :: 0 <= j < 8 ==> !Lines.LineWins(cells, WinningThree, j))
      && (exists i :: 0 <= i < 9 && cells[i].None?)
  {
    match Lines.FirstWinning(cells, WinningThree, 0)
    case Some(j) =>
      if cells[Lines.Order[j].0] == Some(PieceOf(player)) then Some(Win) else Some(Loss)
    case None =>
      if exists i :: 0 <= i < 9 && cells[i].None? then None else Some(Draw)
  }

  /** The result seen by the host is the mirror of the result seen by the guest. */
  lemma OutcomeAntisymmetric(cells: seq<Cell>)
    requires |cells| == 9
    ensures Outcome(cells, Host) == Some(Win) <==> Outcome(cells, Guest) == Some(Loss)
    ensures Outcome(cells, Host) == Some(Loss) <==> Outcome(cells, Guest) == Some(Win)
    ensures Outcome(cells, Host) == Some(Draw) <==> Outcome(cells, Guest) == Some(Draw)
    ensures Outcome(cells, Host) == None <==> Outcome(cells, Guest) == None
  {
    match Lines.FirstWinning(cells, WinningThree, 0)
    case Some(j) =>
      assert Lines.LineWins(cells, WinningThree, j);
      Lines.OrderCells(j);
      var (a, b, d) := Lines.Order[j];
      assert WinningThree(cells[a], cells[b], cells[d]);
      var c := cells[Lines.Order[j].0];
      assert c.Some? && (c.value.X? || c.value.O?);
      assert Outcome(cells, Host) == (if c == Some(O) then Some(Win) else Some(Loss));
      assert Outcome(cells, Guest) == (if c == Some(X) then Some(Win) else Some(Loss));
    case None =>
  }

  // ---------------------------------------------------------------------
  // The board as a value, for the search engine
  // ---------------------------------------------------------------------

  datatype State = State(cells: seq<Cell>, next: Piece)

  /** apply_move on a board value: the mover's piece on cell x + 3y, then the other piece to move. */
  function Apply(s: State, m: Move): State
  {
    if Index(m) < |s.cells| then State(s.cells[Index(m) := Some(s.next)], Other(s.next)) else s
  }

  /** The rules in the form the search engine takes. */
  function Rules(): Game<State, Move>
  {
    Game(
      (s: State) => LegalMoves(s.cells),
      Apply,
      (s: State, player: Player) => if |s.cells| == 9 then Outcome(s.cells, player) else None,
      (s: State) => PlayerOf(s.next))
  }

  function EmptyCount(cells: seq<Cell>): nat
  {
    if cells == [] then 0 else (if cells[0].None? then 1 else 0) + EmptyCount(cells[1..])
  }

  lemma {:induction false} EmptyCountFill(cells: seq<Cell>, i: nat, p: Piece)
    requires i < |cells| && cells[i].None?
    ensures EmptyCount(cells[i := Some(p)]) + 1 == EmptyCount(cells)
  {
    if i > 0 {
      assert cells[i := Some(p)][1..] == cells[1..][i - 1 := Some(p)];
      EmptyCountFill(cells[1..], i - 1, p);
    }
  }

  /** A legal move fills one empty cell, so every game ends: the engine's rollout terminates. */
  lemma RulesTerminate()
    ensures Terminating(Rules(), (s: State) => EmptyCount(s.cells))
  {
    forall s: State, m: Move | m in Rules().legalMoves(s)
      ensures EmptyCount(Rules().apply(s, m).cells) < EmptyCount(s.cells)
    {
      LegalMovesExactly(s.cells, m);
      EmptyCountFill(s.cells, Index(m), s.next);
    }
  }

  /** Applying a legal move removes exactly that move from the legal moves. */
  lemma ApplyConsumesMove(s: State, m: Move, m': Move)
    requires |s.cells| == 9 && m in LegalMoves(s.cells)
    ensures m' in LegalMoves(Apply(s, m).cells) <==> m' in LegalMoves(s.cells) && m' != m
  {
    LegalMovesExactly(s.cells, m);
    LegalMovesExactly(s.cells, m');
    LegalMovesExactly(Apply(s, m).cells, m');
    if m' != m && m'.x < 3 && m.x < 3 {
      assert Index(m') != Index(m);
    }
  }

  // ---------------------------------------------------------------------
  // The board object (src/tic_tac_toe.rs:30-123)
  // ---------------------------------------------------------------------

  class Board {
    var cells: array<Cell>
    var nextToMove: Piece

    ghost predicate Valid()
      reads this
    {
      cells.Length == 9
    }

    function Snapshot(): State
      reads this, cells
    {
      State(cells[..], nextToMove)
    }

    /** O in the centre, every other cell empty, X to move. */
    constructor Empty()
      ensures Valid() && fresh(cells)
      ensures cells[..] == EmptyCells && nextToMove == X
    {
      cells := new Cell[9](i => if i == 4 then Some(O) else None);
      nextToMove := X;
      new;
      assert cells[..] == EmptyCells;
    }

    function Finished(player: Player): Option<Output>
      requires Valid()
      reads this, cells
    {
      Outcome(cells[..], player)
    }

    /** One placement per empty cell, in cell order; a finished board is not special-cased. */
    method AllLegalMoves() returns (moves: seq<Move>)
      requires Valid()
      ensures moves == LegalMoves(cells[..])
    {
      moves := [];
      for i := 0 to 9
        invariant moves == LegalUpTo(cells[..], i)
      {
        if cells[i].None? {
          moves := moves + [MoveAt(i)];
        }
      }
    }

    /** Write the mover's piece to cell x + 3y and hand the move to the other piece. */
    method ApplyMove(m: Move)
      requires Valid() && Index(m) < 9
      modifies this, cells
      ensures Valid() && cells == old(cells)
      ensures Snapshot() == Apply(old(Snapshot()), m)
    {
      cells[Index(m)] := Some(nextToMove);
      nextToMove := Other(nextToMove);
    }

    function NextToMove(): Player
      reads this
    {
      PlayerOf(nextToMove)
    }
  }
}
