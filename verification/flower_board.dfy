/**
 * The Flower Skud board (src/flower_skud/board.rs): the tiles each side has
 * played, each side's reserve, the move counters, the end-of-game rules and
 * the generation of legal moves.  The grid is built from the played lists
 * and passed alongside; the harmonies of a position come from
 * `Grid::list_all_harmonies`, which is not part of this model, and are
 * taken here as an input.
 */
module FlowerBoard {
  import opened Optional
  import opened FlowerTypes
  import opened FlowerGrid
  import opened FlowerMoves
  import opened Played
  import Mcts

  // ---------------------------------------------------------------------
  // Harmonies (finished, src/flower_skud/board.rs:83-109)
  // ---------------------------------------------------------------------

  /** A harmony between two tiles of one owner, given by the two points. */
  type Harmony = (Owner, Position, Position)

  type Pair = (Position, Position)

  /** A harmony crosses the centre lines: its ends lie on opposite sides of the x axis or of the y axis. */
  predicate Crossing(p1: Position, p2: Position)
  {
    p1.y * p2.y < 0 || p1.x * p2.x < 0
  }

  /** The product test of `Crossing` is the sign test it stands for. */
  lemma CrossingMeansOppositeSides(p1: Position, p2: Position)
    ensures Crossing(p1, p2) <==> OppositeSigns(p1.y, p2.y) || OppositeSigns(p1.x, p2.x)
    ensures Crossing(p1, p2) == Crossing(p2, p1)
  {
    ProductSign(p1.y, p2.y);
    ProductSign(p1.x, p2.x);
    ProductSign(p2.y, p1.y);
    ProductSign(p2.x, p1.x);
  }

  /** The harmonies of one owner, as pairs of points, in list order. */
  function PairsOf(harmonies: seq<Harmony>, o: Owner): (r: seq<Pair>)
    ensures |r| <= |harmonies|
    ensures forall p :: p in r <==> (o, p.0, p.1) in harmonies
  {
    if harmonies == [] then []
    else
      var n := |harmonies| - 1;
      var h := harmonies[n];
      assert harmonies == harmonies[..n] + [h];
      PairsOf(harmonies[..n], o) + (if h.0 == o then [(h.1, h.2)] else [])
  }

  /** The number of crossing harmonies of one owner. */
  function CrossingCount(harmonies: seq<Harmony>, o: Owner): (r: nat)
    ensures r <= |PairsOf(harmonies, o)|
  {
    if harmonies == [] then 0
    else
      var n := |harmonies| - 1;
      var h := harmonies[n];
      CrossingCount(harmonies[..n], o) + (if h.0 == o && Crossing(h.1, h.2) then 1 else 0)
  }

  /** Every harmony goes to exactly one side. */
  lemma {:induction false} PairsPartition(harmonies: seq<Harmony>)
    ensures |PairsOf(harmonies, Guest)| + |PairsOf(harmonies, Host)| == |harmonies|
  {
    if harmonies != [] {
      PairsPartition(harmonies[..|harmonies| - 1]);
    }
  }

  /** The loop that sorts the harmonies by owner and counts the crossing ones. */
  method SortHarmonies(harmonies: seq<Harmony>)
    returns (guest: seq<Pair>, guestCrossing: nat, host: seq<Pair>, hostCrossing: nat)
    ensures guest == PairsOf(harmonies, Guest) && guestCrossing == CrossingCount(harmonies, Guest)
    ensures host == PairsOf(harmonies, Host) && hostCrossing == CrossingCount(harmonies, Host)
  {
    guest, guestCrossing, host, hostCrossing := [], 0, [], 0;
    for i := 0 to |harmonies|
      invariant guest == PairsOf(harmonies[..i], Guest) && guestCrossing == CrossingCount(harmonies[..i], Guest)
      invariant host == PairsOf(harmonies[..i], Host) && hostCrossing == CrossingCount(harmonies[..i], Host)
    {
      assert harmonies[..i + 1][..i] == harmonies[..i];
      var (owner, p1, p2) := harmonies[i];
      match owner
      case Host =>
        if p1.y * p2.y < 0 || p1.x * p2.x < 0 {
          hostCrossing := hostCrossing + 1;
        }
        host := host + [(p1, p2)];
      case Guest =>
        if p1.y * p2.y < 0 || p1.x * p2.x < 0 {
          guestCrossing := guestCrossing + 1;
        }
        guest := guest + [(p1, p2)];
    }
    assert harmonies[..|harmonies|] == harmonies;
  }

  // ---------------------------------------------------------------------
  // Rings (finish_ring and ring_contains_center, src/flower_skud/board.rs:111-156)
  // ---------------------------------------------------------------------

  /** The list without its i-th element (`Vec::remove`). */
  function Remove<T>(s: seq<T>, i: nat): (r: seq<T>)
    requires i < |s|
    ensures |r| == |s| - 1
    ensures forall x :: x in r ==> x in s
  {
    s[..i] + s[i + 1..]
  }

  /** A harmony touching both a and b. */
  predicate Joins(h: Pair, a: Position, b: Position)
  {
    (h.0 == a || h.1 == a) && (h.0 == b || h.1 == b)
  }

  /** Some harmony of the list joins the two ends of the ring. */
  ghost predicate Closed(harmonies: seq<Pair>, ring: seq<Position>)
    requires |ring| > 0
  {
    exists h :: h in harmonies && Joins(h, ring[0], ring[|ring| - 1])
  }

  /** What a ring found from `fragment` with the harmonies `harmonies` still unused looks like. */
  ghost predicate RingFrom(harmonies: seq<Pair>, fragment: seq<Position>, ring: seq<Position>)
  {
    && |fragment| <= |ring| <= |fragment| + |harmonies|
    && (forall p :: p in fragment ==> p in ring)
    && |ring| > 0
    && Closed(harmonies, ring)
  }

  /** A ring found after extending the fragment by one point with one harmony fewer is a ring of the larger search. */
  lemma RingsLift(harmonies: seq<Pair>, i: nat, fragment: seq<Position>, longer: seq<Position>, rings: seq<seq<Position>>)
    requires i < |harmonies| && |longer| == |fragment| + 1
    requires forall p :: p in fragment ==> p in longer
    requires forall ring :: ring in rings ==> RingFrom(Remove(harmonies, i), longer, ring)
    ensures forall ring :: ring in rings ==> RingFrom(harmonies, fragment, ring)
  {
    forall ring | ring in rings
      ensures RingFrom(harmonies, fragment, ring)
    {
      var h :| h in Remove(harmonies, i) && Joins(h, ring[0], ring[|ring| - 1]);
      assert h in harmonies;
    }
  }

  /**
   * `finish_ring`: the rings that complete `fragment` using the harmonies,
   * each harmony used at most once.  Each ring found keeps the fragment's
   * points, is at most one point per harmony longer, and its two ends are
   * joined by a harmony.
   */
  function Rings(harmonies: seq<Pair>, fragment: seq<Position>): (r: seq<seq<Position>>)
    requires |fragment| > 0
    ensures forall ring :: ring in r ==> RingFrom(harmonies, fragment, ring)
    decreases |harmonies|, 1, 0
  {
    RingsBefore(harmonies, fragment, |harmonies|)
  }

  /** The rings found by the first n iterations of the loop of `finish_ring`. */
  function RingsBefore(harmonies: seq<Pair>, fragment: seq<Position>, n: nat): (r: seq<seq<Position>>)
    requires |fragment| > 0 && n <= |harmonies|
    ensures forall ring :: ring in r ==> RingFrom(harmonies, fragment, ring)
    decreases |harmonies|, 0, n
  {
    if n == 0 then []
    else
      var i := n - 1;
      var h := harmonies[i];
      var first := fragment[0];
      var last := fragment[|fragment| - 1];
      var matchesStart := h.0 == first || h.1 == first;
      var matchesEnd := h.0 == last || h.1 == last;
      RingsBefore(harmonies, fragment, i)
      + if matchesStart && matchesEnd then
          assert h in harmonies && Joins(h, fragment[0], fragment[|fragment| - 1]);
          [fragment]
        else if matchesStart then
          var longer := [if h.0 == first then h.1 else h.0] + fragment;
          var found := Rings(Remove(harmonies, i), longer);
          RingsLift(harmonies, i, fragment, longer, found);
          found
        else if matchesEnd then
          var longer := fragment + [if h.0 == last then h.1 else h.0];
          var found := Rings(Remove(harmonies, i), longer);
          RingsLift(harmonies, i, fragment, longer, found);
          found
        else []
  }

  /** `finish_ring` as written: a loop over the harmonies that recurses on a copy without the matched one. */
  method FinishRing(harmonies: seq<Pair>, fragment: seq<Position>) returns (rings: seq<seq<Position>>)
    requires |fragment| > 0
    ensures rings == Rings(harmonies, fragment)
    decreases |harmonies|
  {
    rings := [];
    for index := 0 to |harmonies|
      invariant rings == RingsBefore(harmonies, fragment, index)
    {
      var harmony := harmonies[index];
      var matchesStart := harmony.0 == fragment[0] || harmony.1 == fragment[0];
      var matchesEnd := harmony.0 == fragment[|fragment| - 1] || harmony.1 == fragment[|fragment| - 1];
      if matchesStart && matchesEnd {
        rings := rings + [fragment];
      } else if matchesStart {
        var h := Remove(harmonies, index);
        var r := [if harmony.0 == fragment[0] then harmony.1 else harmony.0] + fragment;
        var more := FinishRing(h, r);
        rings := rings + more;
      } else if matchesEnd {
        var h := Remove(harmonies, index);
        var r := fragment + [if harmony.0 == fragment[|fragment| - 1] then harmony.1 else harmony.0];
        var more := FinishRing(h, r);
        rings := rings + more;
      }
    }
  }

  /** The coordinate sums of the points of a ring. */
  function Sum(ring: seq<Position>): (int, int)
  {
    if ring == [] then (0, 0)
    else
      var s := Sum(ring[..|ring| - 1]);
      (s.0 + ring[|ring| - 1].x, s.1 + ring[|ring| - 1].y)
  }

  lemma {:induction false} SumAppend(a: seq<Position>, b: seq<Position>)
    ensures Sum(a + b) == (Sum(a).0 + Sum(b).0, Sum(a).1 + Sum(b).1)
  {
    if b == [] {
      assert a + b == a;
    } else {
      var n := |b| - 1;
      assert (a + b)[..|a + b| - 1] == a + b[..n];
      SumAppend(a, b[..n]);
    }
  }

  /** `ring_contains_center`: the points of the ring sum to (0, 0); the ring must not be empty. */
  predicate RingContainsCenter(ring: seq<Position>)
    requires |ring| > 0
  {
    Sum(ring) == (0, 0)
  }

  /** The centre test does not depend on where the ring starts. */
  lemma CentreTestIgnoresRotation(a: seq<Position>, b: seq<Position>)
    requires |a + b| > 0
    ensures RingContainsCenter(a + b) <==> RingContainsCenter(b + a)
  {
    SumAppend(a, b);
    SumAppend(b, a);
  }

  predicate AnyCentred(rings: seq<seq<Position>>)
    requires forall ring :: ring in rings ==> |ring| > 0
  {
    exists j :: 0 <= j < |rings| && RingContainsCenter(rings[j])
  }

  /**
   * A side has a centre ring: taking its harmonies from the last, some
   * ring completed from that harmony with the ones before it contains the
   * centre.
   */
  predicate HasCentreRing(harmonies: seq<Pair>)
  {
    if harmonies == [] then false
    else
      var rest := harmonies[..|harmonies| - 1];
      var h := harmonies[|harmonies| - 1];
      AnyCentred(Rings(rest, [h.0, h.1])) || HasCentreRing(rest)
  }

  /** The `'test_harmony` loop: pop harmonies until one of them closes a ring around the centre. */
  method SideHasCentreRing(harmonies: seq<Pair>) returns (won: bool)
    ensures won == HasCentreRing(harmonies)
  {
    var list := harmonies;
    won := false;
    while list != []
      invariant HasCentreRing(harmonies) == HasCentreRing(list)
      decreases |list|
    {
      var harmony := list[|list| - 1];
      list := list[..|list| - 1];
      var rings := FinishRing(list, [harmony.0, harmony.1]);
      assert forall j :: 0 <= j < |rings| ==> |rings[j]| > 0 by {
        forall j | 0 <= j < |rings|
          ensures |rings[j]| > 0
        {
          assert rings[j] in rings;
        }
      }
      for k := 0 to |rings|
        invariant forall j :: 0 <= j < k ==> !RingContainsCenter(rings[j])
      {
        if Sum(rings[k]) == (0, 0) {
          won := true;
          return;
        }
      }
    }
  }

  // ---------------------------------------------------------------------
  // The end of the game (finished, src/flower_skud/board.rs:81-233)
  // ---------------------------------------------------------------------

  /** The result when some side has a centre ring, seen from `perspective`. */
  function RingResult(guestWon: bool, hostWon: bool, perspective: Mcts.Player): Mcts.Output
  {
    if hostWon && guestWon then Mcts.Draw
    else if hostWon && perspective == Mcts.Player.Host then Mcts.Win
    else if guestWon && perspective == Mcts.Player.Guest then Mcts.Win
    else Mcts.Loss
  }

  /** The result when a reserve is used up: the side with more crossing harmonies wins. */
  function CrossingResult(guestCrossing: nat, hostCrossing: nat, perspective: Mcts.Player): Mcts.Output
  {
    if guestCrossing == hostCrossing then Mcts.Draw
    else match perspective
      case Guest => if guestCrossing > hostCrossing then Mcts.Win else Mcts.Loss
      case Host => if guestCrossing < hostCrossing then Mcts.Win else Mcts.Loss
  }

  /**
   * `finished` seen from `perspective`: a centre ring decides first, then
   * an empty reserve (by crossing harmonies), then 50 moves without
   * planting give a draw.  Both reserves must be non-empty lists, since
   * their totals are taken with `reduce(..).unwrap()`.
   */
  function Outcome(harmonies: seq<Harmony>, reserveGuest: seq<(Tile, nat)>, reserveHost: seq<(Tile, nat)>,
                   movesSincePlanting: nat, perspective: Mcts.Player): Option<Mcts.Output>
    requires |reserveGuest| > 0 && |reserveHost| > 0
  {
    var guest := PairsOf(harmonies, Guest);
    var host := PairsOf(harmonies, Host);
    var guestWon := HasCentreRing(guest);
    var hostWon := HasCentreRing(host);
    if |guest| + |host| > 0 && (hostWon || guestWon) then
      Some(RingResult(guestWon, hostWon, perspective))
    else if Total(reserveGuest) == 0 || Total(reserveHost) == 0 then
      Some(CrossingResult(CrossingCount(harmonies, Guest), CrossingCount(harmonies, Host), perspective))
    else if movesSincePlanting >= 50 then Some(Mcts.Draw)
    else None
  }

  /** A side with a centre ring wins against one without; two centre rings draw. */
  lemma RingRule(harmonies: seq<Harmony>, reserveGuest: seq<(Tile, nat)>, reserveHost: seq<(Tile, nat)>,
                 movesSincePlanting: nat, perspective: Mcts.Player)
    requires |reserveGuest| > 0 && |reserveHost| > 0
    requires HasCentreRing(PairsOf(harmonies, Guest)) || HasCentreRing(PairsOf(harmonies, Host))
    ensures var r := Outcome(harmonies, reserveGuest, reserveHost, movesSincePlanting, perspective);
      && r.Some?
      && (r == Some(Mcts.Draw) <==> HasCentreRing(PairsOf(harmonies, Guest)) && HasCentreRing(PairsOf(harmonies, Host)))
      && (r == Some(Mcts.Win) <==>
            HasCentreRing(PairsOf(harmonies, OwnerOf(perspective)))
            && !HasCentreRing(PairsOf(harmonies, OwnerOf(Mcts.Opponent(perspective)))))
  {
  }

  /** With no centre ring and a used-up reserve, crossing harmonies decide. */
  lemma ReserveRule(harmonies: seq<Harmony>, reserveGuest: seq<(Tile, nat)>, reserveHost: seq<(Tile, nat)>,
                    movesSincePlanting: nat, perspective: Mcts.Player)
    requires |reserveGuest| > 0 && |reserveHost| > 0
    requires !HasCentreRing(PairsOf(harmonies, Guest)) && !HasCentreRing(PairsOf(harmonies, Host))
    requires Total(reserveGuest) == 0 || Total(reserveHost) == 0
    ensures var r := Outcome(harmonies, reserveGuest, reserveHost, movesSincePlanting, perspective);
      var mine := CrossingCount(harmonies, OwnerOf(perspective));
      var theirs := CrossingCount(harmonies, OwnerOf(Mcts.Opponent(perspective)));
      && r.Some?
      && (r == Some(Mcts.Draw) <==> mine == theirs)
      && (r == Some(Mcts.Win) <==> mine > theirs)
  {
  }

  /** With no centre ring and both reserves in stock, the game ends only by 50 moves without planting. */
  lemma FiftyMoveRule(harmonies: seq<Harmony>, reserveGuest: seq<(Tile, nat)>, reserveHost: seq<(Tile, nat)>,
                      movesSincePlanting: nat, perspective: Mcts.Player)
    requires |reserveGuest| > 0 && |reserveHost| > 0
    requires !HasCentreRing(PairsOf(harmonies, Guest)) && !HasCentreRing(PairsOf(harmonies, Host))
    requires Total(reserveGuest) > 0 && Total(reserveHost) > 0
    ensures var r := Outcome(harmonies, reserveGuest, reserveHost, movesSincePlanting, perspective);
      && (r == Some(Mcts.Draw) <==> movesSincePlanting >= 50)
      && (r == None <==> movesSincePlanting < 50)
  {
  }

  /** Both sides see the same end: a win for one is a loss for the other, a draw a draw. */
  lemma OutcomeAntisymmetric(harmonies: seq<Harmony>, reserveGuest: seq<(Tile, nat)>, reserveHost: seq<(Tile, nat)>,
                             movesSincePlanting: nat)
    requires |reserveGuest| > 0 && |reserveHost| > 0
    ensures var host := Outcome(harmonies, reserveGuest, reserveHost, movesSincePlanting, Mcts.Player.Host);
      var guest := Outcome(harmonies, reserveGuest, reserveHost, movesSincePlanting, Mcts.Player.Guest);
      && (host == Some(Mcts.Win) <==> guest == Some(Mcts.Loss))
      && (host == Some(Mcts.Loss) <==> guest == Some(Mcts.Win))
      && (host == Some(Mcts.Draw) <==> guest == Some(Mcts.Draw))
      && (host == None <==> guest == None)
  {
  }

  // ---------------------------------------------------------------------
  // The board (src/flower_skud/board.rs:3-79, 235-314)
  // ---------------------------------------------------------------------

  /** The reserve each side starts with: three of each flower. */
  function InitialReserve(): (r: seq<(Tile, nat)>)
    ensures |r| == 6
  {
    [(Flower(Rose), 3), (Flower(Rhododendron), 3), (Flower(Chrysanthemum), 3),
     (Flower(Lily), 3), (Flower(WhiteJade), 3), (Flower(Jasmine), 3)]
  }

  /** A reserve whose every entry holds c tiles holds c tiles per entry in total. */
  lemma {:induction false} TotalUniform(reserve: seq<(Tile, nat)>, c: nat)
    requires forall i :: 0 <= i < |reserve| ==> reserve[i].1 == c
    ensures Total(reserve) == c * |reserve|
  {
    if reserve != [] {
      TotalUniform(reserve[..|reserve| - 1], c);
    }
  }

  /** The starting reserve holds 18 tiles. */
  lemma InitialReserveTotal()
    ensures Total(InitialReserve()) == 18
  {
    TotalUniform(InitialReserve(), 3);
  }

  /** Each flower has exactly one entry in the starting reserve, holding three tiles. */
  lemma InitialReserveStock(f: FlowerTile)
    ensures FirstOf(InitialReserve(), Flower(f)).Some?
    ensures InitialReserve()[FirstOf(InitialReserve(), Flower(f)).value].1 == 3
    ensures forall i, j :: 0 <= i < j < 6 ==> InitialReserve()[i].0 != InitialReserve()[j].0
  {
    var r := InitialReserve();
    var k := match f
      case Rose => 0
      case Rhododendron => 1
      case Chrysanthemum => 2
      case Lily => 3
      case WhiteJade => 4
      case Jasmine => 5;
    assert r[k].0 == Flower(f);
  }

  /** Guest moves when the move count is even, Host when it is odd. */
  function NextOf(moveCount: nat): (p: Mcts.Player)
    ensures p == Mcts.Player.Guest <==> moveCount % 2 == 0
  {
    if moveCount % 2 == 0 then Mcts.Player.Guest else Mcts.Player.Host
  }

  /** Each move hands the turn to the other side. */
  lemma TurnsAlternate(moveCount: nat)
    ensures NextOf(moveCount + 1) == Mcts.Opponent(NextOf(moveCount))
    ensures NextOf(moveCount + 2) == NextOf(moveCount)
  {
  }

  /** There is a stock of flower f: some reserve entry for it has a positive count. */
  predicate InStock(reserve: seq<(Tile, nat)>, f: FlowerTile)
  {
    exists i :: 0 <= i < |reserve| && reserve[i].0 == Flower(f) && reserve[i].1 > 0
  }

  /** m arranges one of the first n played tiles from where it stands, as the movement rules allow. */
  ghost predicate ArrangingFrom(cells: seq<Cell>, played: seq<(Tile, Position)>, n: nat, m: Move)
    requires |cells| == GridSize
  {
    m.Arranging? && exists k :: 0 <= k < n && k < |played| && played[k].1 == m.start && ArrangingAllowed(cells, played[k].0, m.start, m)
  }

  /** The arranging moves of all_legal_moves: the moves of every played tile in turn. */
  method ArrangingMoves(grid: Grid, played: seq<(Tile, Position)>) returns (moves: seq<Move>)
    requires grid.Valid() && AllOnBoard(played)
    ensures forall m :: m in moves ==> ArrangingFrom(grid.cells[..], played, |played|, m)
  {
    moves := [];
    for k := 0 to |played|
      invariant forall m :: m in moves ==> ArrangingFrom(grid.cells[..], played, k, m)
    {
      var forPiece := AllPossibilities(grid, played[k].0, played[k].1);
      forall m | m in forPiece
        ensures ArrangingFrom(grid.cells[..], played, k + 1, m)
      {
        var i :| 0 <= i < |forPiece| && forPiece[i] == m;
        assert ArrangingAllowed(grid.cells[..], played[k].0, played[k].1, m);
      }
      forall m | m in moves
        ensures ArrangingFrom(grid.cells[..], played, k + 1, m)
      {
        assert ArrangingFrom(grid.cells[..], played, k, m);
        var j :| 0 <= j < k && j < |played| && played[j].1 == m.start && ArrangingAllowed(grid.cells[..], played[j].0, m.start, m);
      }
      moves := moves + forPiece;
    }
  }

  /** The planting moves of all_legal_moves: for every open gate, every flower still in stock. */
  method PlantingMoves(gates: seq<Position>, reserve: seq<(Tile, nat)>) returns (moves: seq<Move>)
    ensures forall m :: m in moves ==> m.Planting? && m.at in gates && InStock(reserve, m.flower)
    ensures forall f, g :: g in gates && InStock(reserve, f) ==> Planting(f, g) in moves
  {
    moves := [];
    for gi := 0 to |gates|
      invariant forall m :: m in moves ==> m.Planting? && m.at in gates && InStock(reserve, m.flower)
      invariant forall f, j :: 0 <= j < gi && InStock(reserve, f) ==> Planting(f, gates[j]) in moves
    {
      ghost var before := moves;
      for ri := 0 to |reserve|
        invariant forall m :: m in moves ==> m.Planting? && m.at in gates && InStock(reserve, m.flower)
        invariant forall m :: m in before ==> m in moves
        invariant forall i :: 0 <= i < ri && reserve[i].1 > 0 ==> Planting(reserve[i].0.flower, gates[gi]) in moves
      {
        if reserve[ri].1 > 0 {
          moves := moves + [Planting(reserve[ri].0.flower, gates[gi])];
        }
      }
    }
  }

  class Board {
    var playedGuest: seq<(Tile, Position)>
    var playedHost: seq<(Tile, Position)>
    var reserveHost: seq<(Tile, nat)>
    var reserveGuest: seq<(Tile, nat)>
    var moveCount: nat
    var movesSincePlanting: nat

    /** Played tiles stand on board points; the reserves are never empty lists. */
    ghost predicate Valid()
      reads this
    {
      AllOnBoard(playedGuest) && AllOnBoard(playedHost) && |reserveGuest| > 0 && |reserveHost| > 0
    }

    /** `empty`: nothing played, both reserves full, both counters at zero. */
    constructor Empty()
      ensures Valid()
      ensures playedGuest == [] && playedHost == []
      ensures reserveGuest == InitialReserve() && reserveHost == InitialReserve()
      ensures moveCount == 0 && movesSincePlanting == 0
    {
      playedGuest, playedHost := [], [];
      reserveHost, reserveGuest := InitialReserve(), InitialReserve();
      moveCount, movesSincePlanting := 0, 0;
    }

    function MoveCount(): nat
      reads this
    {
      moveCount
    }

    function MovesSincePlanting(): nat
      reads this
    {
      movesSincePlanting
    }

    function NextToMove(): (p: Mcts.Player)
      reads this
      ensures p == NextOf(moveCount)
    {
      if moveCount % 2 == 0 then Mcts.Player.Guest else Mcts.Player.Host
    }

    /** `guest_add_tile`: one more guest tile on the board, one fewer in the guest reserve. */
    method GuestAddTile(tile: Tile, position: Position)
      requires CanDecrement(reserveGuest, tile)
      modifies this
      ensures playedGuest == old(playedGuest) + [(tile, position)]
      ensures reserveGuest == DecrementFirst(old(reserveGuest), tile)
      ensures playedHost == old(playedHost) && reserveHost == old(reserveHost)
      ensures moveCount == old(moveCount) && movesSincePlanting == old(movesSincePlanting)
    {
      playedGuest := playedGuest + [(tile, position)];
      reserveGuest := DecrementFirstInPlace(reserveGuest, tile);
    }

    /** `host_add_tile`: one more host tile on the board, one fewer in the host reserve. */
    method HostAddTile(tile: Tile, position: Position)
      requires CanDecrement(reserveHost, tile)
      modifies this
      ensures playedHost == old(playedHost) + [(tile, position)]
      ensures reserveHost == DecrementFirst(old(reserveHost), tile)
      ensures playedGuest == old(playedGuest) && reserveGuest == old(reserveGuest)
      ensures moveCount == old(moveCount) && movesSincePlanting == old(movesSincePlanting)
    {
      playedHost := playedHost + [(tile, position)];
      reserveHost := DecrementFirstInPlace(reserveHost, tile);
    }

    /** The reserve of the side to move. */
    function MoverReserve(): seq<(Tile, nat)>
      reads this
    {
      if NextOf(moveCount) == Mcts.Player.Guest then reserveGuest else reserveHost
    }

    /** The played tiles of the side to move. */
    function MoverPlayed(): seq<(Tile, Position)>
      reads this
    {
      if NextOf(moveCount) == Mcts.Player.Guest then playedGuest else playedHost
    }

    /** `finished`, given the harmonies of the position. */
    method Finished(harmonies: seq<Harmony>, perspective: Mcts.Player) returns (r: Option<Mcts.Output>)
      requires Valid()
      ensures r == Outcome(harmonies, reserveGuest, reserveHost, movesSincePlanting, perspective)
    {
      var guest, guestCrossing, host, hostCrossing := SortHarmonies(harmonies);
      if |guest| + |host| > 0 {
        var guestWon := SideHasCentreRing(guest);
        var hostWon := SideHasCentreRing(host);
        if hostWon || guestWon {
          return Some(
            if hostWon && guestWon then Mcts.Draw
            else if hostWon && perspective == Mcts.Player.Host then Mcts.Win
            else if guestWon && perspective == Mcts.Player.Guest then Mcts.Win
            else Mcts.Loss);
        }
      }
      var reserveSizeGuest := Total(reserveGuest);
      var reserveSizeHost := Total(reserveHost);
      if reserveSizeGuest == 0 || reserveSizeHost == 0 {
        if guestCrossing == hostCrossing {
          return Some(Mcts.Draw);
        }
        return Some(
          match perspective
          case Guest => if guestCrossing > hostCrossing then Mcts.Win else Mcts.Loss
          case Host => if guestCrossing < hostCrossing then Mcts.Win else Mcts.Loss);
      }
      if movesSincePlanting >= 50 {
        return Some(Mcts.Draw);
      }
      return None;
    }

    /**
     * `all_legal_moves`: nothing once the game is over; otherwise the
     * arranging moves of every tile the mover has played, then a planting
     * of every flower in the mover's stock on every open gate.
     */
    method AllLegalMoves(grid: Grid, harmonies: seq<Harmony>) returns (moves: seq<Move>)
      requires Valid() && grid.Valid()
      ensures Outcome(harmonies, reserveGuest, reserveHost, movesSincePlanting, NextOf(moveCount)).Some? ==> moves == []
      ensures forall m :: m in moves && m.Arranging? ==> ArrangingFrom(grid.cells[..], MoverPlayed(), |MoverPlayed()|, m)
      ensures forall m :: m in moves && m.Planting? ==>
        m.at in Gates && grid.At(m.at).None? && InStock(MoverReserve(), m.flower)
      ensures Outcome(harmonies, reserveGuest, reserveHost, movesSincePlanting, NextOf(moveCount)).None? ==>
        forall f, g :: g in Gates && grid.At(g).None? && InStock(MoverReserve(), f) ==> Planting(f, g) in moves
    {
      var finished := Finished(harmonies, NextToMove());
      if finished.Some? {
        return [];
      }
      var tilesPlayed, reserve := MoverPlayed(), MoverReserve();
      var arranging := ArrangingMoves(grid, tilesPlayed);
      var gates := grid.OpenGates();
      var planting := PlantingMoves(gates, reserve);
      moves := arranging + planting;
    }

    /**
     * `apply_move`: planting puts the flower on the mover's played list,
     * takes it from the mover's reserve and resets the planting counter;
     * arranging moves the mover's first tile at `start` to `end` and counts
     * one more move without planting; every move counts one move.
     */
    method ApplyMove(m: Move)
      requires Valid()
      requires m.Planting? ==> InBounds(m.at) && CanDecrement(MoverReserve(), Flower(m.flower))
      requires m.Arranging? ==> InBounds(m.end)
      modifies this
      ensures Valid()
      ensures moveCount == old(moveCount) + 1
      ensures m.Planting? ==> movesSincePlanting == 0
      ensures m.Planting? && NextOf(old(moveCount)) == Mcts.Player.Guest ==>
        && playedGuest == old(playedGuest) + [(Flower(m.flower), m.at)]
        && reserveGuest == DecrementFirst(old(reserveGuest), Flower(m.flower))
        && playedHost == old(playedHost) && reserveHost == old(reserveHost)
      ensures m.Planting? && NextOf(old(moveCount)) == Mcts.Player.Host ==>
        && playedHost == old(playedHost) + [(Flower(m.flower), m.at)]
        && reserveHost == DecrementFirst(old(reserveHost), Flower(m.flower))
        && playedGuest == old(playedGuest) && reserveGuest == old(reserveGuest)
      ensures m.Arranging? ==>
        && movesSincePlanting == old(movesSincePlanting) + 1
        && reserveGuest == old(reserveGuest) && reserveHost == old(reserveHost)
      ensures m.Arranging? && NextOf(old(moveCount)) == Mcts.Player.Guest ==>
        playedGuest == MoveFirst(old(playedGuest), m.start, m.end) && playedHost == old(playedHost)
      ensures m.Arranging? && NextOf(old(moveCount)) == Mcts.Player.Host ==>
        playedHost == MoveFirst(old(playedHost), m.start, m.end) && playedGuest == old(playedGuest)
    {
      match m {
        case Planting(flowerTile, position) =>
          movesSincePlanting := 0;
          match NextToMove() {
            case Host =>
              HostAddTile(Flower(flowerTile), position);
            case Guest =>
              GuestAddTile(Flower(flowerTile), position);
          }
        case Arranging(start, end) =>
          movesSincePlanting := movesSincePlanting + 1;
          if moveCount % 2 == 0 {
            playedGuest := MoveFirstInPlace(playedGuest, start, end);
          } else {
            playedHost := MoveFirstInPlace(playedHost, start, end);
          }
      }
      moveCount := moveCount + 1;
    }
  }

  /** Arranging keeps every played tile on the board when the destination is a board point. */
  lemma MoveFirstStaysOnBoard(played: seq<(Tile, Position)>, start: Position, end: Position)
    requires AllOnBoard(played) && InBounds(end)
    ensures AllOnBoard(MoveFirst(played, start, end))
  {
  }

  /** Planting takes exactly one tile out of the mover's reserve when it holds that flower. */
  lemma PlantingUsesOneTile(reserve: seq<(Tile, nat)>, f: FlowerTile)
    requires CanDecrement(reserve, Flower(f)) && InStock(reserve, f)
    ensures Total(DecrementFirst(reserve, Flower(f))) + 1 == Total(reserve)
  {
    DecrementLowersTotal(reserve, Flower(f));
  }
}
