/**
 * Flower Skud vocabulary (src/flower_skud/other.rs): owners, directions,
 * tiles and their clashes, moves, and positions on the diamond-shaped
 * board of 17 x 17 points whose corners beyond |x| + |y| = 12 are cut off.
 */
module FlowerTypes {
  import opened Optional

  datatype Owner = Host | Guest

  datatype Direction = Up | Down | Left | Right

  /** The four directions in the order a search visits them (`Direction::ALL`). */
  const AllDirections: seq<Direction> := [Up, Down, Left, Right]

  datatype FlowerTile = Rose | Chrysanthemum | Rhododendron | Jasmine | Lily | WhiteJade

  datatype Tile = Flower(flower: FlowerTile)

  function Clashes(a: Tile, b: Tile): bool
  {
    match (a.flower, b.flower)
    case (Rose, Jasmine) => true
    case (Chrysanthemum, Jasmine) => true
    case (Rhododendron, WhiteJade) => true
    case (Jasmine, Rose) => true
    case (Jasmine, Chrysanthemum) => true
    case (WhiteJade, Rhododendron) => true
    case _ => false
  }

  /** Clashing is symmetric and no tile clashes with itself. */
  lemma ClashesSymmetricIrreflexive(a: Tile, b: Tile)
    ensures Clashes(a, b) == Clashes(b, a)
    ensures !Clashes(a, a)
  {
  }

  /** Exactly three unordered pairs clash; Lily clashes with nothing. */
  lemma ClashingPairs(a: Tile, b: Tile)
    ensures Clashes(a, b) <==>
      || {a.flower, b.flower} == {Rose, Jasmine}
      || {a.flower, b.flower} == {Chrysanthemum, Jasmine}
      || {a.flower, b.flower} == {Rhododendron, WhiteJade}
    ensures a.flower == Lily ==> !Clashes(a, b)
  {
    if a.flower != b.flower {
      assert a.flower in {a.flower, b.flower} && b.flower in {a.flower, b.flower};
    } else {
      assert {a.flower, b.flower} == {a.flower};
    }
  }

  datatype Move = Planting(flower: FlowerTile, at: Position) | Arranging(start: Position, end: Position)

  /** A point of the board; the source stores both coordinates as i8. */
  datatype Position = Position(x: int, y: int)

  function Abs(n: int): nat
  {
    if n < 0 then -n else n
  }

  const Gates: seq<Position> := [Position(8, 0), Position(-8, 0), Position(0, 8), Position(0, -8)]

  /** `is_gate`, which is not part of this model, taken to be membership of the four gates. */
  predicate IsGate(p: Position)
  {
    p in Gates
  }

  /** The bound check of `Position::new` as written: no lower bound on either coordinate. */
  predicate OutOfBound(x: int, y: int)
  {
    x > 8 || y > 8 || Abs(x) + Abs(y) > 12
  }

  /** `Position::new` as written. */
  function NewAsWritten(x: int, y: int): (r: Option<Position>)
    ensures r.Some? <==> !OutOfBound(x, y)
    ensures r.Some? ==> r.value == Position(x, y)
  {
    if OutOfBound(x, y) then None else Some(Position(x, y))
  }

  /** The points of the board: both coordinates in -8 .. 8, corners cut at |x| + |y| = 12. */
  predicate InBounds(p: Position)
  {
    -8 <= p.x <= 8 && -8 <= p.y <= 8 && Abs(p.x) + Abs(p.y) <= 12
  }

  /** `Position::new` with the lower bound the board needs; the rest of the model uses this one. */
  function New(x: int, y: int): (r: Option<Position>)
    ensures r.Some? <==> InBounds(Position(x, y))
    ensures r.Some? ==> r.value == Position(x, y)
    ensures r.Some? ==> NewAsWritten(x, y) == r
  {
    if x < -8 || y < -8 || OutOfBound(x, y) then None else Some(Position(x, y))
  }

  /** `value`: the stored pair. */
  function Value(p: Position): (int, int)
  {
    (p.x, p.y)
  }

  /** A position made by New gives back the coordinates it was made from. */
  lemma ValueOfNew(x: int, y: int)
    requires New(x, y).Some?
    ensures Value(New(x, y).value) == (x, y)
  {
  }

  function Dx(d: Direction): int
  {
    match d
    case Left => -1
    case Right => 1
    case _ => 0
  }

  function Dy(d: Direction): int
  {
    match d
    case Up => 1
    case Down => -1
    case _ => 0
  }

  /** One step in direction d: Up is y + 1, Down y - 1, Left x - 1, Right x + 1; None off the board. */
  function Add(p: Position, d: Direction): (r: Option<Position>)
    ensures r.Some? <==> InBounds(Position(p.x + Dx(d), p.y + Dy(d)))
    ensures r.Some? ==> r.value == Position(p.x + Dx(d), p.y + Dy(d))
    ensures r.Some? ==> Abs(r.value.x - p.x) + Abs(r.value.y - p.y) == 1
  {
    match d
    case Up => New(p.x, p.y + 1)
    case Down => New(p.x, p.y - 1)
    case Left => New(p.x - 1, p.y)
    case Right => New(p.x + 1, p.y)
  }

  /** `add` as written, built on NewAsWritten. */
  function AddAsWritten(p: Position, d: Direction): Option<Position>
  {
    NewAsWritten(p.x + Dx(d), p.y + Dy(d))
  }

  /** Every gate is a valid position, under either bound check. */
  lemma GatesAreValid()
    ensures forall g :: g in Gates ==> New(g.x, g.y) == Some(g) && InBounds(g)
  {
  }

  /** The cell offset (x + 8) + 17 (y + 8) both grids use, computed without overflow. */
  function RawOffset(p: Position): int
  {
    (p.x + 8) + (p.y + 8) * 17
  }

  /** On the board the offset is a cell of the 289-cell grid, and distinct points get distinct cells. */
  lemma OffsetInjective(p: Position, q: Position)
    requires InBounds(p) && InBounds(q)
    ensures 0 <= RawOffset(p) < 289
    ensures RawOffset(p) == RawOffset(q) ==> p == q
  {
  }

  /**
   * Without a lower bound, stepping Left from the gate (-8, 0) is accepted
   * and yields (-9, 0), which is off the board and whose offset is that of
   * the board point (8, -1).
   */
  lemma StepOffTheBoard()
    ensures AddAsWritten(Position(-8, 0), Left) == Some(Position(-9, 0))
    ensures !InBounds(Position(-9, 0)) && InBounds(Position(8, -1))
    ensures RawOffset(Position(-9, 0)) == RawOffset(Position(8, -1))
    ensures Add(Position(-8, 0), Left) == None
  {
  }
}
