/**
 * The earlier Skud Pai Sho board (src/skud_pai_sho.rs): played lists and
 * reserves of flower, special-flower and accent tiles, moves that may carry
 * a harmony bonus, the Wheel accent that turns the tiles around it, and the
 * grid addressing with 8-bit coordinates.
 */
module SkudPaiSho {
  import opened Optional
  import opened Played

  datatype FlowerTile = Rose | Chrysanthemum | Rhododendron | Jasmine | Lily | WhiteJade

  datatype SpecialFlowerTile = Lotus | Orchid

  datatype AccentTile = Rock | Wheel | Knotweed | Boat

  datatype Tile = Flower(flower: FlowerTile) | Special(special: SpecialFlowerTile) | Accent(accent: AccentTile)

  /** A point; the source stores both coordinates as i8. */
  datatype Position = Position(x: int, y: int)

  datatype AccentTileMove = BoatTo(pushed: Position) | Wrapper(tile: AccentTile)

  datatype HarmonyBonus =
    | PlantFlower(flower: FlowerTile, at: Position)
    | PlantSpecialFlower(special: SpecialFlowerTile, at: Position)
    | PlaceAccentTile(accentMove: AccentTileMove, at: Position)

  datatype Move =
    | Planting(flower: FlowerTile, at: Position)
    | Arranging(start: Position, end: Position, bonus: Option<HarmonyBonus>)

  datatype Owner = Host | Guest

  // ---------------------------------------------------------------------
  // Grid addressing (Grid::index and Grid::index_mut, src/skud_pai_sho.rs:37-54)
  // ---------------------------------------------------------------------

  predicate IsI8(v: int)
  {
    -128 <= v < 128
  }

  function Abs(n: int): nat
  {
    if n < 0 then -n else n
  }

  /**
   * `index` (and `index_mut`, which is the same) with the checked 8-bit
   * arithmetic of a debug build: None when it panics, at the bound check,
   * on an overflow, or because a negative offset turns into an index far
   * beyond the 289 cells when it is cast to usize.  Otherwise the cell.
   */
  function IndexAsWritten(p: Position): (r: Option<int>)
    requires IsI8(p.x) && IsI8(p.y)
    ensures r.Some? ==> !(p.x > 8 || p.y > 8 || Abs(p.x) + Abs(p.y) > 12)
    ensures r.Some? ==> r.value == (p.x + 8) + (p.y + 8) * 17
    ensures r.Some? ==> 0 <= r.value < 289
  {
    if p.x > 8 || p.y > 8 then None
    else if !IsI8(Abs(p.x)) || !IsI8(Abs(p.y)) || !IsI8(Abs(p.x) + Abs(p.y)) then None
    else if Abs(p.x) + Abs(p.y) > 12 then None
    else
      var (x, y) := (p.x + 8, p.y + 8);
      if !IsI8(y * 17) || !IsI8(x + y * 17) then None
      else if x + y * 17 < 0 then None
      else Some(x + y * 17)
  }

  /**
   * The bound check has no lower bound either: (0, -9) passes it, and its
   * offset -9 becomes an out-of-range usize index.
   */
  lemma IndexBelowTheBoard()
    ensures !(0 > 8 || -9 > 8 || Abs(0) + Abs(-9) > 12)
    ensures (0 + 8) + (-9 + 8) * 17 == -9
    ensures IndexAsWritten(Position(0, -9)) == None
  {
  }

  /** Every point with y >= 0 passes the bound check and then overflows at (y + 8) * 17; (0, 0) is one. */
  lemma IndexOverflows(p: Position)
    requires IsI8(p.x) && IsI8(p.y)
    requires !(p.x > 8 || p.y > 8 || Abs(p.x) + Abs(p.y) > 12) && p.y >= 0
    ensures IndexAsWritten(p) == None
    ensures IndexAsWritten(Position(0, 0)) == None
  {
  }

  /** The board points: both coordinates in -8 .. 8, corners cut at |x| + |y| = 12. */
  predicate OnBoard(p: Position)
  {
    -8 <= p.x <= 8 && -8 <= p.y <= 8 && Abs(p.x) + Abs(p.y) <= 12
  }

  /** The cell offset (x + 8) + 17 (y + 8), computed in a wide type. */
  function Index(p: Position): (i: nat)
    requires OnBoard(p)
    ensures i < 289
  {
    (p.x + 8) + (p.y + 8) * 17
  }

  /** Distinct board points get distinct cells, and the as-written index agrees wherever it does not panic. */
  lemma IndexInjective(p: Position, q: Position)
    requires OnBoard(p) && OnBoard(q)
    ensures Index(p) == Index(q) ==> p == q
    ensures IndexAsWritten(p).Some? ==> IndexAsWritten(p).value == Index(p)
  {
  }

  // ---------------------------------------------------------------------
  // The Wheel accent (wheel_a_tile, src/skud_pai_sho.rs:234-259)
  // ---------------------------------------------------------------------

  /** The four guards of `wheel_a_tile`, for a tile at t and a wheel at w. */
  predicate BelowGuard(w: Position, t: Position) { t.y + 1 == w.y && (t.x == w.x || t.x - 1 == w.x) }
  predicate AboveGuard(w: Position, t: Position) { t.y - 1 == w.y && (t.x == w.x || t.x + 1 == w.x) }
  predicate LeftGuard(w: Position, t: Position) { t.x + 1 == w.x && (t.y == w.y || t.y + 1 == w.y) }
  predicate RightGuard(w: Position, t: Position) { t.x - 1 == w.x && (t.y == w.y || t.y - 1 == w.y) }

  /** `wheel_a_tile` as written: every branch shifts x. */
  function WheelAsWritten(w: Position, t: Position): Position
  {
    if BelowGuard(w, t) then Position(t.x + 1, t.y)
    else if AboveGuard(w, t) then Position(t.x - 1, t.y)
    else if LeftGuard(w, t) then Position(t.x + 1, t.y)
    else if RightGuard(w, t) then Position(t.x - 1, t.y)
    else t
  }

  /**
   * As written, a wheeled tile keeps its y, moves by at most one in x, and
   * at most one guard holds, so the order of the branches does not matter.
   */
  lemma WheelAsWrittenShape(w: Position, t: Position)
    ensures WheelAsWritten(w, t).y == t.y
    ensures Abs(WheelAsWritten(w, t).x - t.x) <= 1
    ensures WheelAsWritten(w, t) != t <==> BelowGuard(w, t) || AboveGuard(w, t) || LeftGuard(w, t) || RightGuard(w, t)
    ensures !(BelowGuard(w, t) && AboveGuard(w, t)) && !(BelowGuard(w, t) && LeftGuard(w, t))
    ensures !(BelowGuard(w, t) && RightGuard(w, t)) && !(AboveGuard(w, t) && LeftGuard(w, t))
    ensures !(AboveGuard(w, t) && RightGuard(w, t)) && !(LeftGuard(w, t) && RightGuard(w, t))
  {
  }

  /**
   * As written, the tiles left and right of the wheel both land on the
   * wheel's own point, and the corner below right leaves the wheel's ring.
   */
  lemma WheelAsWrittenCollides(w: Position)
    ensures WheelAsWritten(w, Position(w.x - 1, w.y)) == w
    ensures WheelAsWritten(w, Position(w.x + 1, w.y)) == w
    ensures WheelAsWritten(w, Position(w.x + 1, w.y - 1)) == Position(w.x + 2, w.y - 1)
  {
  }

  /** t is one of the eight points around w. */
  predicate AroundWheel(w: Position, t: Position)
  {
    t != w && Abs(t.x - w.x) <= 1 && Abs(t.y - w.y) <= 1
  }

  /**
   * The turn the guards describe: each of the eight points around the
   * wheel moves one place along the ring (below leftwards, left side
   * upwards, above rightwards, right side downwards); no other tile moves.
   */
  function Rotate(w: Position, t: Position): Position
  {
    if BelowGuard(w, t) then Position(t.x - 1, t.y)
    else if AboveGuard(w, t) then Position(t.x + 1, t.y)
    else if LeftGuard(w, t) then Position(t.x, t.y + 1)
    else if RightGuard(w, t) then Position(t.x, t.y - 1)
    else t
  }

  /** The turn keeps the ring around the wheel, moves nothing else, and never sends two tiles to one point. */
  lemma RotateIsATurn(w: Position, t: Position, u: Position)
    ensures AroundWheel(w, t) <==> AroundWheel(w, Rotate(w, t))
    ensures AroundWheel(w, t) ==> Rotate(w, t) != t
    ensures !AroundWheel(w, t) ==> Rotate(w, t) == t
    ensures Rotate(w, t) == Rotate(w, u) ==> t == u
  {
  }

  /**
   * The corrected `wheel_a_tile`: the source's four guards, each with the
   * step that turns the tile one place along the ring. The written branches
   * only shift x (WheelAsWritten).
   */
  method WheelATile(w: Position, t: Position) returns (r: Position)
    ensures r == Rotate(w, t)
  {
    r := t;
    if t.y + 1 == w.y && (t.x == w.x || t.x - 1 == w.x) {
      r := r.(x := r.x - 1);
      return;
    }
    if t.y - 1 == w.y && (t.x == w.x || t.x + 1 == w.x) {
      r := r.(x := r.x + 1);
      return;
    }
    if t.x + 1 == w.x && (t.y == w.y || t.y + 1 == w.y) {
      r := r.(y := r.y + 1);
      return;
    }
    if t.x - 1 == w.x && (t.y == w.y || t.y - 1 == w.y) {
      r := r.(y := r.y - 1);
      return;
    }
  }

  /** A played list with every tile turned around the wheel at w. */
  function Wheeled(played: seq<(Tile, Position)>, w: Position): (r: seq<(Tile, Position)>)
    ensures |r| == |played|
    ensures forall i :: 0 <= i < |r| ==> r[i] == (played[i].0, Rotate(w, played[i].1))
  {
    seq(|played|, i requires 0 <= i < |played| => (played[i].0, Rotate(w, played[i].1)))
  }

  /** The loop `for (_, tile_position) in played { wheel_a_tile(position, tile_position) }`, with the corrected wheel step. */
  method WheelEach(played: seq<(Tile, Position)>, w: Position) returns (r: seq<(Tile, Position)>)
    ensures r == Wheeled(played, w)
  {
    r := played;
    for i := 0 to |r|
      invariant |r| == |played|
      invariant forall j :: 0 <= j < i ==> r[j] == (played[j].0, Rotate(w, played[j].1))
      invariant forall j :: i <= j < |r| ==> r[j] == played[j]
    {
      var turned := WheelATile(w, r[i].1);
      r := r[i := (r[i].0, turned)];
    }
  }

  // ---------------------------------------------------------------------
  // The board and apply_move (src/skud_pai_sho.rs:3-10, 57-232)
  // ---------------------------------------------------------------------

  datatype State = State(
    playedGuest: seq<(Tile, Position)>,
    playedHost: seq<(Tile, Position)>,
    reserveHost: seq<(Tile, nat)>,
    reserveGuest: seq<(Tile, nat)>,
    moveCount: nat)

  /** `guest_add_tile` on a state. */
  function GuestAdd(s: State, tile: Tile, at: Position): (r: State)
    requires CanDecrement(s.reserveGuest, tile)
  {
    s.(playedGuest := s.playedGuest + [(tile, at)], reserveGuest := DecrementFirst(s.reserveGuest, tile))
  }

  /** `host_add_tile` on a state. */
  function HostAdd(s: State, tile: Tile, at: Position): (r: State)
    requires CanDecrement(s.reserveHost, tile)
  {
    s.(playedHost := s.playedHost + [(tile, at)], reserveHost := DecrementFirst(s.reserveHost, tile))
  }

  /** The mover's first tile at `from` moves to `to`. */
  function MoveOwn(s: State, guestTurn: bool, from: Position, to: Position): State
  {
    if guestTurn then s.(playedGuest := MoveFirst(s.playedGuest, from, to))
    else s.(playedHost := MoveFirst(s.playedHost, from, to))
  }

  /**
   * The tile a bonus takes out of a reserve, and whose reserve: planting
   * bonuses draw on the mover's, accent tiles on the host's on either turn
   * (as the source writes them).
   */
  function BonusTakes(b: HarmonyBonus, guestTurn: bool): (Owner, Tile)
  {
    var mover := if guestTurn then Guest else Host;
    match b
    case PlantFlower(f, _) => (mover, Flower(f))
    case PlantSpecialFlower(sp, _) => (mover, Special(sp))
    case PlaceAccentTile(BoatTo(_), _) => (Host, Accent(Boat))
    case PlaceAccentTile(Wrapper(a), _) => (Host, Accent(a))
  }

  /** The tile a move takes out of a reserve, and whose reserve. */
  function Takes(m: Move, guestTurn: bool): Option<(Owner, Tile)>
  {
    match m
    case Planting(f, _) => Some((if guestTurn then Guest else Host, Flower(f)))
    case Arranging(_, _, bonus) => if bonus.None? then None else Some(BonusTakes(bonus.value, guestTurn))
  }

  /** The reserve count to decrement is positive (a u8 at zero would underflow). */
  predicate CanTake(s: State, t: (Owner, Tile))
  {
    CanDecrement(if t.0 == Guest then s.reserveGuest else s.reserveHost, t.1)
  }

  predicate Feasible(s: State, m: Move)
  {
    Takes(m, s.moveCount % 2 == 0).Some? ==> CanTake(s, Takes(m, s.moveCount % 2 == 0).value)
  }

  /** The harmony bonus of an arranging move. */
  function Bonus(s: State, b: HarmonyBonus, guestTurn: bool): State
    requires CanTake(s, BonusTakes(b, guestTurn))
  {
    match b
    case PlaceAccentTile(BoatTo(pushed), at) =>
      HostAdd(MoveOwn(s, guestTurn, at, pushed), Accent(Boat), at)
    case PlaceAccentTile(Wrapper(a), at) =>
      var added := HostAdd(s, Accent(a), at);
      if a != Wheel then added
      else if guestTurn then added.(playedGuest := Wheeled(added.playedGuest, at))
      else added.(playedHost := Wheeled(added.playedHost, at))
    case PlantFlower(f, at) =>
      if guestTurn then GuestAdd(s, Flower(f), at) else HostAdd(s, Flower(f), at)
    case PlantSpecialFlower(sp, at) =>
      if guestTurn then GuestAdd(s, Special(sp), at) else HostAdd(s, Special(sp), at)
  }

  /**
   * `apply_move`, corrected: Guest moves on an even count, Host on an odd
   * one; the mover's first tile at `start` goes to `end` (the written host
   * branch searches the guest's list, HostArrangingAsWritten), then the
   * bonus applies with the corrected wheel; every move counts one move.
   */
  function Applied(s: State, m: Move): (r: State)
    requires Feasible(s, m)
    ensures r.moveCount == s.moveCount + 1
    ensures |r.reserveGuest| == |s.reserveGuest| && |r.reserveHost| == |s.reserveHost|
  {
    var guestTurn := s.moveCount % 2 == 0;
    var after := match m
      case Planting(f, at) =>
        if guestTurn then GuestAdd(s, Flower(f), at) else HostAdd(s, Flower(f), at)
      case Arranging(start, end, bonus) =>
        var moved := MoveOwn(s, guestTurn, start, end);
        if bonus.None? then moved else Bonus(moved, bonus.value, guestTurn);
    after.(moveCount := s.moveCount + 1)
  }

  /** A planting lands on the mover's list, by the parity of the move count, and draws on the mover's reserve. */
  lemma PlantingGoesToMover(s: State, f: FlowerTile, at: Position)
    requires Feasible(s, Planting(f, at))
    ensures var r := Applied(s, Planting(f, at));
      if s.moveCount % 2 == 0 then
        && r.playedGuest == s.playedGuest + [(Flower(f), at)]
        && r.reserveGuest == DecrementFirst(s.reserveGuest, Flower(f))
        && r.playedHost == s.playedHost && r.reserveHost == s.reserveHost
      else
        && r.playedHost == s.playedHost + [(Flower(f), at)]
        && r.reserveHost == DecrementFirst(s.reserveHost, Flower(f))
        && r.playedGuest == s.playedGuest && r.reserveGuest == s.reserveGuest
  {
  }

  /** An arranging move without bonus moves only the mover's first tile at `start`; reserves and the other list stay. */
  lemma ArrangingMovesOneTile(s: State, start: Position, end: Position)
    ensures var r := Applied(s, Arranging(start, end, None));
      && r.reserveGuest == s.reserveGuest && r.reserveHost == s.reserveHost
      && |r.playedGuest| == |s.playedGuest| && |r.playedHost| == |s.playedHost|
      && (s.moveCount % 2 == 0 ==> r.playedGuest == MoveFirst(s.playedGuest, start, end) && r.playedHost == s.playedHost)
      && (s.moveCount % 2 == 1 ==> r.playedHost == MoveFirst(s.playedHost, start, end) && r.playedGuest == s.playedGuest)
  {
  }

  /**
   * The Boat bonus on Guest's turn: the guest's first tile at the boat's
   * point is pushed, and the Boat joins the host's played list, drawn from
   * the host's reserve.
   */
  lemma GuestBoatBonus(s: State, start: Position, end: Position, at: Position, pushed: Position)
    requires s.moveCount % 2 == 0
    requires CanDecrement(s.reserveHost, Accent(Boat))
    ensures var r := Applied(s, Arranging(start, end, Some(PlaceAccentTile(BoatTo(pushed), at))));
      && r.playedGuest == MoveFirst(MoveFirst(s.playedGuest, start, end), at, pushed)
      && r.playedHost == s.playedHost + [(Accent(Boat), at)]
      && r.reserveHost == DecrementFirst(s.reserveHost, Accent(Boat))
      && r.reserveGuest == s.reserveGuest
  {
  }

  /** A Wheel bonus turns every tile of the mover around the wheel and leaves the other side's tiles. */
  lemma WheelBonus(s: State, start: Position, end: Position, at: Position)
    requires CanDecrement(s.reserveHost, Accent(Wheel))
    ensures var r := Applied(s, Arranging(start, end, Some(PlaceAccentTile(Wrapper(Wheel), at))));
      var moved := MoveOwn(s, s.moveCount % 2 == 0, start, end);
      && (s.moveCount % 2 == 0 ==> r.playedGuest == Wheeled(moved.playedGuest, at) && r.playedHost == s.playedHost + [(Accent(Wheel), at)])
      && (s.moveCount % 2 == 1 ==> r.playedHost == Wheeled(moved.playedHost + [(Accent(Wheel), at)], at) && r.playedGuest == s.playedGuest)
  {
  }

  /** The host's arranging step as written: it searches the guest's list. */
  function HostArrangingAsWritten(s: State, start: Position, end: Position): State
  {
    s.(playedGuest := MoveFirst(s.playedGuest, start, end))
  }

  /**
   * On Host's turn, as written, a guest tile at `start` moves and the
   * host's own tile there does not; the corrected step moves the host's.
   */
  lemma HostArrangingMovesGuestTile(t: Tile, start: Position, end: Position)
    requires start != end
    ensures var s := State([(t, start)], [(t, start)], [], [], 1);
      && HostArrangingAsWritten(s, start, end).playedGuest == [(t, end)]
      && HostArrangingAsWritten(s, start, end).playedHost == [(t, start)]
      && Applied(s, Arranging(start, end, None)).playedHost == [(t, end)]
      && Applied(s, Arranging(start, end, None)).playedGuest == [(t, start)]
  {
    var s := State([(t, start)], [(t, start)], [], [], 1);
    assert FirstAt(s.playedGuest, start) == Some(0);
  }

  class Board {
    var playedGuest: seq<(Tile, Position)>
    var playedHost: seq<(Tile, Position)>
    var reserveHost: seq<(Tile, nat)>
    var reserveGuest: seq<(Tile, nat)>
    var moveCount: nat

    function Snapshot(): State
      reads this
    {
      State(playedGuest, playedHost, reserveHost, reserveGuest, moveCount)
    }

    /** `guest_add_tile`. */
    method GuestAddTile(tile: Tile, at: Position)
      requires CanDecrement(reserveGuest, tile)
      modifies this
      ensures Snapshot() == GuestAdd(old(Snapshot()), tile, at)
    {
      playedGuest := playedGuest + [(tile, at)];
      reserveGuest := DecrementFirstInPlace(reserveGuest, tile);
    }

    /** `host_add_tile`. */
    method HostAddTile(tile: Tile, at: Position)
      requires CanDecrement(reserveHost, tile)
      modifies this
      ensures Snapshot() == HostAdd(old(Snapshot()), tile, at)
    {
      playedHost := playedHost + [(tile, at)];
      reserveHost := DecrementFirstInPlace(reserveHost, tile);
    }

    /** The harmony bonus of an arranging move, on the mover's side, with the corrected wheel (src/skud_pai_sho.rs:127-170, 180-226). */
    method ApplyBonus(b: HarmonyBonus, guestTurn: bool)
      requires CanTake(Snapshot(), BonusTakes(b, guestTurn))
      modifies this
      ensures Snapshot() == Bonus(old(Snapshot()), b, guestTurn)
    {
      match b {
        case PlaceAccentTile(BoatTo(pushed), at) =>
          if guestTurn {
            playedGuest := MoveFirstInPlace(playedGuest, at, pushed);
          } else {
            playedHost := MoveFirstInPlace(playedHost, at, pushed);
          }
          HostAddTile(Accent(Boat), at);
        case PlaceAccentTile(Wrapper(accent), at) =>
          HostAddTile(Accent(accent), at);
          if accent == Wheel {
            if guestTurn {
              playedGuest := WheelEach(playedGuest, at);
            } else {
              playedHost := WheelEach(playedHost, at);
            }
          }
        case PlantFlower(f, at) =>
          if guestTurn {
            GuestAddTile(Flower(f), at);
          } else {
            HostAddTile(Flower(f), at);
          }
        case PlantSpecialFlower(sp, at) =>
          if guestTurn {
            GuestAddTile(Special(sp), at);
          } else {
            HostAddTile(Special(sp), at);
          }
      }
    }

    /** `apply_move`, with the host's arranging step on the host's list and the wheel turning the ring. */
    method ApplyMove(m: Move)
      requires Feasible(Snapshot(), m)
      modifies this
      ensures Snapshot() == Applied(old(Snapshot()), m)
    {
      var guestTurn := moveCount % 2 == 0;
      match m {
        case Planting(flowerTile, at) =>
          if guestTurn {
            GuestAddTile(Flower(flowerTile), at);
          } else {
            HostAddTile(Flower(flowerTile), at);
          }
        case Arranging(start, end, harmonyBonus) =>
          if guestTurn {
            playedGuest := MoveFirstInPlace(playedGuest, start, end);
          } else {
            playedHost := MoveFirstInPlace(playedHost, start, end);
          }
          if harmonyBonus.Some? {
            ApplyBonus(harmonyBonus.value, guestTurn);
          }
      }
      moveCount := moveCount + 1;
    }
  }
}
