/**
 * The Flower Skud grid (src/flower_skud/grid.rs): 289 cells, one per point
 * of the 17 x 17 square, point (x, y) at offset (x + 8) + 17 (y + 8).
 */
module FlowerGrid {
  import opened Optional
  import opened FlowerTypes
  import Mcts

  type Cell = Option<(Tile, Owner)>

  const GridSize: nat := 289

  /** The 289 empty cells a grid starts from. */
  function EmptyGrid(): (r: seq<Cell>)
    ensures |r| == GridSize && forall k :: 0 <= k < GridSize ==> r[k].None?
  {
    seq(GridSize, k => None)
  }

  function OwnerOf(player: Mcts.Player): Owner
  {
    match player
    case Host => Host
    case Guest => Guest
  }

  /** The bound check of `index` as written. */
  predicate IndexCheckPasses(p: Position)
  {
    !(p.x > 8 || p.y > 8 || Abs(p.x) + Abs(p.y) > 12)
  }

  /** The bound check of `index_mut` as written. */
  predicate IndexMutCheckPasses(p: Position)
  {
    !(Abs(p.x) > 8 || Abs(p.y) > 8 || Abs(p.x) + Abs(p.y) > 12)
  }

  /**
   * index_mut's check is stricter than index's: it accepts only board
   * points, while index also lets (-9, 0) through.
   */
  lemma IndexChecksCompared(p: Position)
    ensures IndexMutCheckPasses(p) <==> InBounds(p)
    ensures IndexMutCheckPasses(p) ==> IndexCheckPasses(p)
    ensures IndexCheckPasses(Position(-9, 0)) && !IndexMutCheckPasses(Position(-9, 0))
  {
  }

  /**
   * `index` as written, in a debug build, where integer overflow panics:
   * None when it panics.  Past the bound check, x + 8 or y + 8 can be
   * negative (the check has no lower bound); its cast to usize then lies
   * just below 2^64, and the following `* 17` or `+` overflows.
   */
  function IndexAsWritten(p: Position): (r: Option<nat>)
    ensures r.Some? <==> InBounds(p)
    ensures r.Some? ==> r.value == RawOffset(p) && r.value < GridSize
  {
    if !IndexCheckPasses(p) then None
    else
      var (x, y) := (p.x + 8, p.y + 8);
      if x < 0 || y < 0 then None
      else Some(x + y * 17)
  }

  /**
   * `index` as written, in a release build, where usize arithmetic wraps
   * modulo 2^64: None when the wrapped offset is out of range and the
   * cell access panics.
   */
  function IndexReleaseAsWritten(p: Position): Option<nat>
  {
    if !IndexCheckPasses(p) then None
    else
      var offset := ((p.x + 8) + (p.y + 8) * 17) % 0x1_0000_0000_0000_0000;
      if offset < GridSize then Some(offset) else None
  }

  /**
   * Just below the south edge (y = -9, |x| <= 3) `index` panics in either
   * build; just beyond the west edge (x = -9, |y| <= 3) a debug build
   * panics and a release build reads the cell of (8, y - 1).
   */
  lemma IndexBeyondTheEdges(x: int, y: int)
    requires -3 <= x <= 3 && -3 <= y <= 3
    ensures IndexCheckPasses(Position(x, -9)) && IndexCheckPasses(Position(-9, y))
    ensures IndexAsWritten(Position(x, -9)) == None && IndexReleaseAsWritten(Position(x, -9)) == None
    ensures IndexAsWritten(Position(-9, y)) == None
    ensures IndexReleaseAsWritten(Position(-9, y)) == Some(RawOffset(Position(8, y - 1)))
  {
  }

  /** The cell of a board point. */
  function Index(p: Position): (i: nat)
    requires InBounds(p)
    ensures i < GridSize && i == RawOffset(p)
  {
    OffsetInjective(p, p);
    (p.x + 8) + (p.y + 8) * 17
  }

  predicate AllOnBoard(tiles: seq<(Tile, Position)>)
  {
    forall i :: 0 <= i < |tiles| ==> InBounds(tiles[i].1)
  }

  /** The cells after writing each tile in turn, owned by `owner`; a later tile overwrites an earlier one. */
  function Painted(cells: seq<Cell>, tiles: seq<(Tile, Position)>, owner: Owner): (r: seq<Cell>)
    requires |cells| == GridSize && AllOnBoard(tiles)
    ensures |r| == GridSize
  {
    if tiles == [] then cells
    else Painted(cells, tiles[..|tiles| - 1], owner)[Index(tiles[|tiles| - 1].1) := Some((tiles[|tiles| - 1].0, owner))]
  }

  /** A painted cell is occupied iff it was, or some tile stands on it; a tile's cell belongs to `owner`. */
  lemma {:induction false} PaintedCell(cells: seq<Cell>, tiles: seq<(Tile, Position)>, owner: Owner, k: nat)
    requires |cells| == GridSize && AllOnBoard(tiles) && k < GridSize
    ensures Painted(cells, tiles, owner)[k].Some? <==>
      cells[k].Some? || exists j :: 0 <= j < |tiles| && Index(tiles[j].1) == k
    ensures (exists j :: 0 <= j < |tiles| && Index(tiles[j].1) == k) ==>
      Painted(cells, tiles, owner)[k].Some? && Painted(cells, tiles, owner)[k].value.1 == owner
    ensures (forall j :: 0 <= j < |tiles| ==> Index(tiles[j].1) != k) ==>
      Painted(cells, tiles, owner)[k] == cells[k]
  {
    if tiles != [] {
      var n := |tiles| - 1;
      var prefix := tiles[..n];
      PaintedCell(cells, prefix, owner, k);
      assert forall j :: 0 <= j < n ==> prefix[j] == tiles[j];
      if exists j :: 0 <= j < |tiles| && Index(tiles[j].1) == k {
        var j :| 0 <= j < |tiles| && Index(tiles[j].1) == k;
        if j < n {
          assert Index(prefix[j].1) == k;
        }
      }
    }
  }

  /** `create`: an empty grid, then every guest tile, then every host tile. */
  function Created(guest: seq<(Tile, Position)>, host: seq<(Tile, Position)>): (r: seq<Cell>)
    requires AllOnBoard(guest) && AllOnBoard(host)
    ensures |r| == GridSize
  {
    Painted(Painted(EmptyGrid(), guest, Guest), host, Host)
  }

  /**
   * A cell of a created grid is occupied iff some played tile stands on it;
   * a host tile overwrites a guest tile at the same point.
   */
  lemma CreatedCell(guest: seq<(Tile, Position)>, host: seq<(Tile, Position)>, k: nat)
    requires AllOnBoard(guest) && AllOnBoard(host) && k < GridSize
    ensures Created(guest, host)[k].Some? <==>
      (exists j :: 0 <= j < |guest| && Index(guest[j].1) == k)
      || (exists j :: 0 <= j < |host| && Index(host[j].1) == k)
    ensures (exists j :: 0 <= j < |host| && Index(host[j].1) == k) ==>
      Created(guest, host)[k].Some? && Created(guest, host)[k].value.1 == Host
    ensures (forall j :: 0 <= j < |host| ==> Index(host[j].1) != k)
            && (exists j :: 0 <= j < |guest| && Index(guest[j].1) == k) ==>
      Created(guest, host)[k].Some? && Created(guest, host)[k].value.1 == Guest
  {
    PaintedCell(EmptyGrid(), guest, Guest, k);
    PaintedCell(Painted(EmptyGrid(), guest, Guest), host, Host, k);
  }

  /** The gates, in gate order, whose cell is empty. */
  function EmptyGates(cells: seq<Cell>, gates: seq<Position>): (r: seq<Position>)
    requires |cells| == GridSize && forall i :: 0 <= i < |gates| ==> InBounds(gates[i])
    ensures forall g :: g in r <==> g in gates && cells[Index(g)].None?
    ensures |r| <= |gates|
  {
    if gates == [] then []
    else (if cells[Index(gates[0])].None? then [gates[0]] else []) + EmptyGates(cells, gates[1..])
  }

  /** p occurs in s before q does. */
  ghost predicate Before(s: seq<Position>, p: Position, q: Position)
  {
    exists a, b :: 0 <= a < b < |s| && p == s[a] && q == s[b]
  }

  /** Any two elements of r occur in s, and in the same order. */
  ghost predicate InOrderIn(r: seq<Position>, s: seq<Position>)
  {
    forall i, j :: 0 <= i < j < |r| ==> Before(s, r[i], r[j])
  }

  /** Order within s is kept when s gains a first element. */
  lemma InOrderInSkip(r: seq<Position>, g: Position, s: seq<Position>)
    requires InOrderIn(r, s)
    ensures InOrderIn(r, [g] + s)
  {
    forall i, j | 0 <= i < j < |r|
      ensures Before([g] + s, r[i], r[j])
    {
      assert Before(s, r[i], r[j]);
      var a, b :| 0 <= a < b < |s| && r[i] == s[a] && r[j] == s[b];
      assert r[i] == ([g] + s)[a + 1] && r[j] == ([g] + s)[b + 1];
    }
  }

  /** Putting g in front of r keeps the order when g comes first in s too. */
  lemma InOrderInKeep(r: seq<Position>, g: Position, s: seq<Position>)
    requires InOrderIn(r, s) && forall x :: x in r ==> x in s
    ensures InOrderIn([g] + r, [g] + s)
  {
    var r', s' := [g] + r, [g] + s;
    forall i, j | 0 <= i < j < |r'|
      ensures Before(s', r'[i], r'[j])
    {
      assert r'[j] == r[j - 1] && r[j - 1] in r;
      var b :| 0 <= b < |s| && s[b] == r[j - 1];
      if i == 0 {
        assert r'[i] == s'[0] && r'[j] == s'[b + 1];
      } else {
        assert Before(s, r[i - 1], r[j - 1]);
        var a, b2 :| 0 <= a < b2 < |s| && r[i - 1] == s[a] && r[j - 1] == s[b2];
        assert r'[i] == s'[a + 1] && r'[j] == s'[b2 + 1];
      }
    }
  }

  /** The empty gates keep the order of `gates`. */
  lemma {:induction false} EmptyGatesInOrder(cells: seq<Cell>, gates: seq<Position>)
    requires |cells| == GridSize && forall i :: 0 <= i < |gates| ==> InBounds(gates[i])
    ensures InOrderIn(EmptyGates(cells, gates), gates)
  {
    if gates != [] {
      var tail := gates[1..];
      assert gates == [gates[0]] + tail;
      var rest := EmptyGates(cells, tail);
      EmptyGatesInOrder(cells, tail);
      if cells[Index(gates[0])].None? {
        assert EmptyGates(cells, gates) == [gates[0]] + rest;
        InOrderInKeep(rest, gates[0], tail);
      } else {
        assert EmptyGates(cells, gates) == rest;
        InOrderInSkip(rest, gates[0], tail);
      }
    }
  }

  class Grid {
    var cells: array<Cell>

    ghost predicate Valid()
      reads this
    {
      cells.Length == GridSize
    }

    /** `create` from the two played lists of a board. */
    constructor Create(guest: seq<(Tile, Position)>, host: seq<(Tile, Position)>)
      requires AllOnBoard(guest) && AllOnBoard(host)
      ensures Valid() && fresh(cells)
      ensures cells[..] == Created(guest, host)
    {
      var a := new Cell[GridSize](i => None);
      assert a[..] == EmptyGrid();
      for i := 0 to |guest|
        invariant a[..] == Painted(EmptyGrid(), guest[..i], Guest)
      {
        assert guest[..i + 1][..i] == guest[..i];
        a[Index(guest[i].1)] := Some((guest[i].0, Guest));
      }
      assert guest[..|guest|] == guest;
      var painted := a[..];
      for i := 0 to |host|
        invariant a[..] == Painted(painted, host[..i], Host)
      {
        assert host[..i + 1][..i] == host[..i];
        a[Index(host[i].1)] := Some((host[i].0, Host));
      }
      assert host[..|host|] == host;
      cells := a;
    }

    /** `index`: the content of a board point. */
    function At(p: Position): Cell
      requires Valid() && InBounds(p)
      reads this, cells
    {
      cells[Index(p)]
    }

    /** `open_gates`: the gates whose cell is empty, in gate order. */
    function OpenGates(): (r: seq<Position>)
      requires Valid()
      reads this, cells
      ensures forall g :: g in r <==> g in Gates && At(g).None?
      ensures InOrderIn(r, Gates)
    {
      GatesAreValid();
      EmptyGatesInOrder(cells[..], Gates);
      EmptyGates(cells[..], Gates)
    }

    /**
     * `apply_move`: planting writes the player's flower on its point;
     * arranging moves the content of `start` to `end` and empties `start`.
     */
    method ApplyMove(m: Move, player: Mcts.Player)
      requires Valid()
      requires m.Planting? ==> InBounds(m.at)
      requires m.Arranging? ==> InBounds(m.start) && InBounds(m.end)
      modifies cells
      ensures m.Planting? ==>
        cells[..] == old(cells[..])[Index(m.at) := Some((Flower(m.flower), OwnerOf(player)))]
      ensures m.Arranging? ==>
        cells[..] == old(cells[..])[Index(m.end) := old(cells[Index(m.start)])][Index(m.start) := None]
    {
      match m
      case Planting(flower, at) =>
        cells[Index(at)] := Some((Flower(flower), OwnerOf(player)));
      case Arranging(start, end) =>
        var beginContent := cells[Index(start)];
        cells[Index(end)] := beginContent;
        cells[Index(start)] := None;
    }
  }

  /**
   * Arranging from s to a different point e: e receives what stood on s,
   * s becomes empty, and no other cell changes.
   */
  lemma ArrangingMovesOneTile(before: seq<Cell>, s: Position, e: Position)
    requires |before| == GridSize && InBounds(s) && InBounds(e) && s != e
    ensures var after := before[Index(e) := before[Index(s)]][Index(s) := None];
      && after[Index(e)] == before[Index(s)]
      && after[Index(s)] == None
      && forall k :: 0 <= k < GridSize && k != Index(s) && k != Index(e) ==> after[k] == before[k]
  {
    OffsetInjective(s, e);
  }
}
