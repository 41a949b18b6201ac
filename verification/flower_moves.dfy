/**
 * Movement in Flower Skud (src/flower_skud/mod.rs): the flood fill that
 * finds where a played tile can move, the clash test on the destination,
 * and the garden rule for landing.
 */
module FlowerMoves {
  import opened Optional
  import opened FlowerTypes
  import opened FlowerGrid

  /** How far a tile moves: 3 for Rose and Jasmine, 4 for Chrysanthemum and Lily, 5 otherwise. */
  function MoveRange(t: Tile): (r: nat)
    ensures 3 <= r <= 5
    ensures r == 3 <==> t.flower == Rose || t.flower == Jasmine
    ensures r == 4 <==> t.flower == Chrysanthemum || t.flower == Lily
  {
    match t.flower
    case Rose | Jasmine => 3
    case Chrysanthemum | Lily => 4
    case Rhododendron | WhiteJade => 5
  }

  /** The red flowers; the others are white. */
  predicate IsRed(t: Tile)
  {
    t.flower == Rose || t.flower == Chrysanthemum || t.flower == Rhododendron
  }

  predicate OppositeSigns(x: int, y: int)
  {
    (x < 0 && 0 < y) || (0 < x && y < 0)
  }

  predicate SameSigns(x: int, y: int)
  {
    (0 < x && 0 < y) || (x < 0 && y < 0)
  }

  lemma ProductSign(x: int, y: int)
    ensures x * y < 0 <==> OppositeSigns(x, y)
    ensures x * y > 0 <==> SameSigns(x, y)
  {
    if x > 0 && y > 0 {
      assert x * y >= y;
    } else if x < 0 && y < 0 {
      assert x * y >= -y;
    } else if x > 0 && y < 0 {
      assert x * y <= y;
    } else if x < 0 && y > 0 {
      assert x * y <= -y;
    }
  }

  /**
   * `is_landable_for`: never on a gate; anywhere outside the gardens
   * (|x| + |y| > 6); inside them, red flowers not where x and y have
   * opposite signs, white flowers not where they have the same sign.
   */
  function IsLandableFor(p: Position, t: Tile): (r: bool)
    ensures IsGate(p) ==> !r
    ensures !IsGate(p) && Abs(p.x) + Abs(p.y) > 6 ==> r
    ensures !IsGate(p) && Abs(p.x) + Abs(p.y) <= 6 && IsRed(t) ==> (r <==> !OppositeSigns(p.x, p.y))
    ensures !IsGate(p) && Abs(p.x) + Abs(p.y) <= 6 && !IsRed(t) ==> (r <==> !SameSigns(p.x, p.y))
  {
    ProductSign(p.x, p.y);
    if IsGate(p) then false
    else if Abs(p.x) + Abs(p.y) <= 6 then
      if IsRed(t) then !(0 > p.x * p.y) else !(p.x * p.y > 0)
    else true
  }

  /** Every tile may land on the two mid-lines, except on the gates. */
  lemma MidlinesAreNeutral(p: Position, t: Tile)
    requires (p.x == 0 || p.y == 0) && !IsGate(p)
    ensures IsLandableFor(p, t)
  {
  }

  // ---------------------------------------------------------------------
  // Clashes (creates_a_clash, src/flower_skud/mod.rs:77-105)
  // ---------------------------------------------------------------------

  /** Steps left before a walk in direction d leaves the 17 x 17 square. */
  function Progress(p: Position, d: Direction): int
  {
    match d
    case Up => 8 - p.y
    case Down => p.y + 8
    case Left => p.x + 8
    case Right => 8 - p.x
  }

  /** q lies on the ray from p in direction d (p itself included). */
  predicate OnRay(p: Position, q: Position, d: Direction)
  {
    match d
    case Up => q.x == p.x && q.y >= p.y
    case Down => q.x == p.x && q.y <= p.y
    case Left => q.y == p.y && q.x <= p.x
    case Right => q.y == p.y && q.x >= p.x
  }

  /**
   * The first occupied point walking from p in direction d, p included;
   * None if the walk leaves the board. Every board point of the ray before
   * the result is empty, and with None every board point of the ray is.
   */
  function FirstOccupied(cells: seq<Cell>, p: Position, d: Direction): (r: Option<Position>)
    requires |cells| == GridSize && InBounds(p)
    ensures r.Some? ==> InBounds(r.value) && cells[Index(r.value)].Some? && OnRay(p, r.value, d)
    ensures cells[Index(p)].Some? ==> r == Some(p)
    ensures forall q :: InBounds(q) && OnRay(p, q, d) && (r.None? || (OnRay(q, r.value, d) && q != r.value)) ==>
      cells[Index(q)].None?
    decreases Progress(p, d)
  {
    if cells[Index(p)].Some? then Some(p)
    else match Add(p, d)
      case None => None
      case Some(q) => FirstOccupied(cells, q, d)
  }

  /**
   * Looking from `end` in direction d, the first tile met clashes with t;
   * when that first tile stands on a gate there is no clash in d.
   */
  predicate ClashIn(cells: seq<Cell>, t: Tile, end: Position, d: Direction)
    requires |cells| == GridSize && InBounds(end)
  {
    var q := FirstOccupied(cells, end, d);
    q.Some? && !IsGate(q.value) && Clashes(cells[Index(q.value)].value.0, t)
  }

  predicate ClashesSomewhere(cells: seq<Cell>, t: Tile, end: Position)
    requires |cells| == GridSize && InBounds(end)
  {
    exists i :: 0 <= i < 4 && ClashIn(cells, t, end, AllDirections[i])
  }

  /** The walk `while move_in_d is a point and empty { move_in_d = move_in_d.add(d) }`. */
  method WalkToOccupied(grid: Grid, end: Position, d: Direction) returns (moveInD: Option<Position>)
    requires grid.Valid() && InBounds(end)
    ensures moveInD == FirstOccupied(grid.cells[..], end, d)
  {
    moveInD := Some(end);
    while moveInD.Some? && grid.At(moveInD.value).None?
      invariant moveInD.Some? ==>
        (InBounds(moveInD.value) && FirstOccupied(grid.cells[..], moveInD.value, d) == FirstOccupied(grid.cells[..], end, d))
      invariant moveInD.None? ==> FirstOccupied(grid.cells[..], end, d) == None
      decreases if moveInD.Some? then Progress(moveInD.value, d) + 1 else 0
    {
      moveInD := Add(moveInD.value, d);
    }
  }

  /**
   * `creates_a_clash`: true iff in some direction the first occupied
   * non-gate point seen from `end` holds a tile clashing with t.
   */
  method CreatesAClash(grid: Grid, t: Tile, start: Position, end: Position) returns (r: bool)
    requires grid.Valid() && InBounds(end)
    ensures r == ClashesSomewhere(grid.cells[..], t, end)
  {
    ghost var cells := grid.cells[..];
    for i := 0 to 4
      invariant forall j :: 0 <= j < i ==> !ClashIn(cells, t, end, AllDirections[j])
    {
      var d := AllDirections[i];
      var moveInD := WalkToOccupied(grid, end, d);
      if moveInD.None? {
        continue;
      }
      var movePos := moveInD.value;
      if IsGate(movePos) {
        continue;
      }
      var content := grid.At(movePos);
      if content.None? {
        continue;
      }
      if Clashes(content.value.0, t) {
        return true;
      }
    }
    return false;
  }

  // ---------------------------------------------------------------------
  // Flood fill (all_possibilities_for_piece_to_move, src/flower_skud/mod.rs:14-75)
  // ---------------------------------------------------------------------

  /** p is a board point with nothing on it. */
  predicate EmptyAt(cells: seq<Cell>, p: Position)
    requires |cells| == GridSize
  {
    InBounds(p) && cells[Index(p)].None?
  }

  /** The point from which one step in direction d leads to p. */
  function Back(p: Position, d: Direction): Position
  {
    Position(p.x - Dx(d), p.y - Dy(d))
  }

  /**
   * p can be reached from `start` in at most n orthogonal steps, every step
   * landing on an empty point.
   */
  ghost predicate Reachable(cells: seq<Cell>, start: Position, p: Position, n: nat)
    requires |cells| == GridSize
    decreases n
  {
    || p == start
    || (&& n > 0
        && EmptyAt(cells, p)
        && (|| Reachable(cells, start, Back(p, Up), n - 1)
            || Reachable(cells, start, Back(p, Down), n - 1)
            || Reachable(cells, start, Back(p, Left), n - 1)
            || Reachable(cells, start, Back(p, Right), n - 1)))
  }

  lemma {:induction false} ReachableMonotone(cells: seq<Cell>, start: Position, p: Position, m: nat, n: nat)
    requires |cells| == GridSize && m <= n && Reachable(cells, start, p, m)
    ensures Reachable(cells, start, p, n)
    decreases m
  {
    if p != start {
      var d :| d in AllDirections && Reachable(cells, start, Back(p, d), m - 1);
      ReachableMonotone(cells, start, Back(p, d), m - 1, n - 1);
      assert EmptyAt(cells, p) && Reachable(cells, start, Back(p, d), n - 1);
    }
  }

  /** One more step onto an empty point stays reachable, with one more step allowed. */
  lemma ReachableStep(cells: seq<Cell>, start: Position, n: nat, q: Position, d: Direction)
    requires |cells| == GridSize && Reachable(cells, start, q, n)
    requires Add(q, d).Some? && EmptyAt(cells, Add(q, d).value)
    ensures Reachable(cells, start, Add(q, d).value, n + 1)
  {
    assert Back(Add(q, d).value, d) == q;
  }

  /** A pending step of the flood fill: from `at`, one step in `dir`, as step number `steps`. */
  datatype Pending = Pending(at: Position, dir: Direction, steps: nat)

  function Pow5(n: nat): (r: nat)
    ensures r >= 1
  {
    if n == 0 then 1 else 5 * Pow5(n - 1)
  }

  /** The termination measure of the flood fill: a pending step numbered c weighs 5^(range - c). */
  function Potential(queue: seq<Pending>, range: nat): nat
  {
    if queue == [] then 0
    else (if queue[0].steps <= range then Pow5(range - queue[0].steps) else 0) + Potential(queue[1..], range)
  }

  lemma {:induction false} PotentialAppend(a: seq<Pending>, b: seq<Pending>, range: nat)
    ensures Potential(a + b, range) == Potential(a, range) + Potential(b, range)
  {
    if a != [] {
      assert (a + b)[0] == a[0];
      assert (a + b)[1..] == a[1..] + b;
      PotentialAppend(a[1..], b, range);
    } else {
      assert a + b == b;
    }
  }

  /** Replacing a step numbered c < range by four steps numbered c + 1 lowers the measure. */
  lemma FourStepsWeighLess(rest: seq<Pending>, item: Pending, next: seq<Pending>, range: nat)
    requires 1 <= item.steps < range && |next| == 4
    requires forall i :: 0 <= i < 4 ==> next[i].steps == item.steps + 1
    ensures Potential(rest + next, range) < Pow5(range - item.steps) + Potential(rest, range)
  {
    PotentialAppend(rest, next, range);
    var w := Pow5(range - item.steps - 1);
    assert Pow5(range - item.steps) == 5 * w;
    assert Potential(next[3..], range) == w;
    assert next[2..][1..] == next[3..];
    assert Potential(next[2..], range) == 2 * w;
    assert next[1..][1..] == next[2..];
    assert Potential(next[1..], range) == 3 * w;
    assert Potential(next, range) == 4 * w;
  }

  predicate PendingOk(range: nat, queue: seq<Pending>)
  {
    forall i :: 0 <= i < |queue| ==> 1 <= queue[i].steps <= range
  }

  ghost predicate PendingReached(cells: seq<Cell>, start: Position, queue: seq<Pending>)
    requires |cells| == GridSize
  {
    forall i :: 0 <= i < |queue| ==> 1 <= queue[i].steps && Reachable(cells, start, queue[i].at, queue[i].steps - 1)
  }

  /** A point the flood fill marked reachable: empty and within range of the start. */
  ghost predicate MarkedOk(cells: seq<Cell>, start: Position, range: nat, checkList: map<Position, bool>)
    requires |cells| == GridSize
  {
    forall p :: p in checkList && checkList[p] ==> Reachable(cells, start, p, range) && EmptyAt(cells, p)
  }

  /**
   * With `add` and `index` as written, a tile standing on the south gate
   * (0, -8) makes move generation panic: the fill's second queued step goes
   * Down to (0, -9), which `add` accepts and `index` cannot address.  The
   * corrected Add stops at the edge instead.
   */
  lemma SouthGateStepPanics()
    ensures Gates[3] == Position(0, -8)
    ensures AddAsWritten(Gates[3], Down) == Some(Position(0, -9))
    ensures IndexAsWritten(Position(0, -9)) == None && IndexReleaseAsWritten(Position(0, -9)) == None
    ensures Add(Gates[3], Down) == None
  {
    IndexBeyondTheEdges(0, 0);
  }

  /** The flood fill proper: a map from each point examined to whether it is reachable. */
  method FloodFill(grid: Grid, range: nat, start: Position) returns (checkList: map<Position, bool>)
    requires grid.Valid() && InBounds(start) && range >= 1
    ensures MarkedOk(grid.cells[..], start, range, checkList)
  {
    ghost var cells := grid.cells[..];
    checkList := map[];
    var leftToCheck := [Pending(start, Up, 1), Pending(start, Down, 1), Pending(start, Left, 1), Pending(start, Right, 1)];
    while leftToCheck != []
      invariant PendingOk(range, leftToCheck)
      invariant PendingReached(cells, start, leftToCheck)
      invariant MarkedOk(cells, start, range, checkList)
      decreases Potential(leftToCheck, range)
    {
      var item := leftToCheck[0];
      ghost var weight := Pow5(range - item.steps);
      assert Potential(leftToCheck, range) == weight + Potential(leftToCheck[1..], range);
      leftToCheck := leftToCheck[1..];
      var next := Add(item.at, item.dir);
      if next.None? {
        continue;
      }
      var newPos := next.value;
      if newPos in checkList && checkList[newPos] {
        continue;
      }
      if grid.At(newPos).Some? {
        checkList := checkList[newPos := false];
        continue;
      }
      ReachableStep(cells, start, item.steps - 1, item.at, item.dir);
      ReachableMonotone(cells, start, newPos, item.steps, range);
      checkList := checkList[newPos := true];
      if item.steps < range {
        var c := item.steps + 1;
        var pushed := [Pending(newPos, Up, c), Pending(newPos, Down, c), Pending(newPos, Left, c), Pending(newPos, Right, c)];
        FourStepsWeighLess(leftToCheck, item, pushed, range);
        leftToCheck := leftToCheck + pushed;
      }
    }
  }

  /** A move the flood fill may return for a tile t leaving `start`. */
  ghost predicate ArrangingAllowed(cells: seq<Cell>, t: Tile, start: Position, m: Move)
    requires |cells| == GridSize
  {
    && m.Arranging? && m.start == start
    && Reachable(cells, start, m.end, MoveRange(t))
    && EmptyAt(cells, m.end)
    && IsLandableFor(m.end, t)
    && !ClashesSomewhere(cells, t, m.end)
  }

  /**
   * `all_possibilities_for_piece_to_move`: each move returned goes from
   * `start` to a distinct empty point within the tile's range, on which
   * the tile may land without a clash.  The order of the result is
   * unspecified (it follows the iteration order of a hash map).
   */
  method AllPossibilities(grid: Grid, t: Tile, start: Position) returns (moves: seq<Move>)
    requires grid.Valid() && InBounds(start)
    ensures forall i :: 0 <= i < |moves| ==> ArrangingAllowed(grid.cells[..], t, start, moves[i])
    ensures forall i, j :: 0 <= i < j < |moves| ==> moves[i] != moves[j]
  {
    ghost var cells := grid.cells[..];
    var checkList := FloodFill(grid, MoveRange(t), start);
    moves := [];
    var keys := checkList.Keys;
    while keys != {}
      invariant keys <= checkList.Keys
      invariant forall i :: 0 <= i < |moves| ==> ArrangingAllowed(cells, t, start, moves[i]) && moves[i].end !in keys
      invariant forall i, j :: 0 <= i < j < |moves| ==> moves[i] != moves[j]
      decreases |keys|
    {
      var p :| p in keys;
      keys := keys - {p};
      if checkList[p] && IsLandableFor(p, t) {
        var clash := CreatesAClash(grid, t, start, p);
        if !clash {
          moves := moves + [Arranging(start, p)];
        }
      }
    }
  }
}
