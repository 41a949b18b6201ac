/**
 * Bookkeeping shared by the two Skud boards (src/flower_skud/board.rs and
 * src/skud_pai_sho.rs): a reserve is a list of (tile, count) entries, a
 * played list a list of (tile, position) entries.  Both boards search these
 * lists front to back and act on the first match only.
 */
module Played {
  import opened Optional

  /** Index of the first reserve entry for tile t. */
  function FirstOf<T(==)>(reserve: seq<(T, nat)>, t: T): (r: Option<nat>)
    ensures r.Some? ==> r.value < |reserve| && reserve[r.value].0 == t
    ensures r.Some? ==> forall i :: 0 <= i < r.value ==> reserve[i].0 != t
    ensures r.None? <==> forall i :: 0 <= i < |reserve| ==> reserve[i].0 != t
  {
    if reserve == [] then None
    else if reserve[0].0 == t then Some(0)
    else match FirstOf(reserve[1..], t)
      case None => None
      case Some(i) => Some(i + 1)
  }

  /** The count `amount -= 1` acts on is positive (a u8 at zero would underflow). */
  predicate CanDecrement<T(==)>(reserve: seq<(T, nat)>, t: T)
  {
    FirstOf(reserve, t).Some? ==> reserve[FirstOf(reserve, t).value].1 > 0
  }

  /** The reserve after taking one t: the first entry for t loses one, nothing else changes. */
  function DecrementFirst<T(==)>(reserve: seq<(T, nat)>, t: T): (r: seq<(T, nat)>)
    requires CanDecrement(reserve, t)
    ensures |r| == |reserve|
    ensures forall i :: 0 <= i < |r| ==> r[i].0 == reserve[i].0
    ensures forall i :: 0 <= i < |r| && Some(i) != FirstOf(reserve, t) ==> r[i] == reserve[i]
    ensures FirstOf(reserve, t).Some? ==>
      r[FirstOf(reserve, t).value].1 + 1 == reserve[FirstOf(reserve, t).value].1
  {
    match FirstOf(reserve, t)
    case None => reserve
    case Some(i) => reserve[i := (t, reserve[i].1 - 1)]
  }

  /** The loop `for (tile_type, amount) in reserve { if tile_type == t { amount -= 1; break } }`. */
  method DecrementFirstInPlace<T(==)>(reserve: seq<(T, nat)>, t: T) returns (r: seq<(T, nat)>)
    requires CanDecrement(reserve, t)
    ensures r == DecrementFirst(reserve, t)
  {
    r := reserve;
    var i := 0;
    while i < |r|
      invariant i <= |r| == |reserve| && r == reserve
      invariant forall j :: 0 <= j < i ==> reserve[j].0 != t
    {
      if r[i].0 == t {
        r := r[i := (r[i].0, r[i].1 - 1)];
        return;
      }
      i := i + 1;
    }
  }

  function Total<T>(reserve: seq<(T, nat)>): nat
  {
    if reserve == [] then 0 else Total(reserve[..|reserve| - 1]) + reserve[|reserve| - 1].1
  }

  lemma {:induction false} TotalReplace<T>(reserve: seq<(T, nat)>, i: nat, e: (T, nat))
    requires i < |reserve|
    ensures Total(reserve[i := e]) + reserve[i].1 == Total(reserve) + e.1
  {
    var n := |reserve|;
    assert reserve[i := e][..n - 1] == if i == n - 1 then reserve[..n - 1] else reserve[..n - 1][i := e];
    if i < n - 1 {
      TotalReplace(reserve[..n - 1], i, e);
    }
  }

  /** Taking a tile that has a reserve entry lowers the reserve total by exactly one. */
  lemma DecrementLowersTotal<T>(reserve: seq<(T, nat)>, t: T)
    requires CanDecrement(reserve, t) && FirstOf(reserve, t).Some?
    ensures Total(DecrementFirst(reserve, t)) + 1 == Total(reserve)
  {
    var i := FirstOf(reserve, t).value;
    TotalReplace(reserve, i, (t, reserve[i].1 - 1));
  }

  /** Index of the first played tile standing at position p. */
  function FirstAt<T, P(==)>(played: seq<(T, P)>, p: P): (r: Option<nat>)
    ensures r.Some? ==> r.value < |played| && played[r.value].1 == p
    ensures r.Some? ==> forall i :: 0 <= i < r.value ==> played[i].1 != p
    ensures r.None? <==> forall i :: 0 <= i < |played| ==> played[i].1 != p
  {
    if played == [] then None
    else if played[0].1 == p then Some(0)
    else match FirstAt(played[1..], p)
      case None => None
      case Some(i) => Some(i + 1)
  }

  /** The played list after moving the first tile at `from` to `to`; every other entry is unchanged. */
  function MoveFirst<T, P(==)>(played: seq<(T, P)>, from: P, to: P): (r: seq<(T, P)>)
    ensures |r| == |played|
    ensures forall i :: 0 <= i < |r| ==> r[i].0 == played[i].0
    ensures forall i :: 0 <= i < |r| && Some(i) != FirstAt(played, from) ==> r[i] == played[i]
    ensures FirstAt(played, from).Some? ==> r[FirstAt(played, from).value].1 == to
  {
    match FirstAt(played, from)
    case None => played
    case Some(i) => played[i := (played[i].0, to)]
  }

  /** The loop `for (_, position) in played { if position == from { position = to; break } }`. */
  method MoveFirstInPlace<T, P(==)>(played: seq<(T, P)>, from: P, to: P) returns (r: seq<(T, P)>)
    ensures r == MoveFirst(played, from, to)
  {
    r := played;
    var i := 0;
    while i < |r|
      invariant i <= |r| == |played| && r == played
      invariant forall j :: 0 <= j < i ==> played[j].1 != from
    {
      if r[i].1 == from {
        r := r[i := (r[i].0, to)];
        return;
      }
      i := i + 1;
    }
  }
}
