/** No push and no transporter creates or destroys anything but open ground and the
    things a push can crush: what lasts is counted over the tiles and over what the
    stats stand on. */
module PushConservation {
  import opened GameVars
  import opened BoardSpec
  import opened PushSpec
  import opened StatTable

  function Unit(b: bool): nat { if b then 1 else 0 }

  ghost function CellsShowing(tiles: map<Coord, TTile>, element: Byte): set<Coord> {
    set c | c in tiles && tiles[c].Element == element
  }

  /** How many of the first n stats stand on `element`. */
  function Covering(stats: seq<TStat>, n: nat, element: Byte): nat
    requires n <= |stats|
  {
    if n == 0 then 0 else Covering(stats, n - 1, element) + Unit(stats[n - 1].Under.Element == element)
  }

  ghost function Total(b: BoardState, element: Byte): nat
    requires Valid(b)
  {
    |CellsShowing(b.tiles, element)| + Covering(b.stats, b.count + 1, element)
  }

  lemma TileUpdate(tiles: map<Coord, TTile>, c: Coord, t: TTile, element: Byte)
    requires c in tiles
    ensures |CellsShowing(tiles[c := t], element)| + Unit(tiles[c].Element == element)
         == |CellsShowing(tiles, element)| + Unit(t.Element == element)
  {
    var rest := CellsShowing(tiles, element) - {c};
    var before, after := CellsShowing(tiles, element), CellsShowing(tiles[c := t], element);
    assert before == if tiles[c].Element == element then rest + {c} else rest;
    assert after == if t.Element == element then rest + {c} else rest;
  }

  lemma {:induction false} CoveringUpdate(stats: seq<TStat>, n: nat, id: nat, s: TStat, element: Byte)
    requires n <= |stats| && id < n
    ensures Covering(stats[id := s], n, element) + Unit(stats[id].Under.Element == element)
         == Covering(stats, n, element) + Unit(s.Under.Element == element)
  {
    if id == n - 1 {
      CoveringSame(stats, stats[id := s], n - 1, element);
    } else {
      CoveringUpdate(stats, n - 1, id, s, element);
    }
  }

  lemma {:induction false} CoveringSame(stats: seq<TStat>, other: seq<TStat>, n: nat, element: Byte)
    requires n <= |stats| && n <= |other|
    requires forall k :: 0 <= k < n ==> stats[k].Under == other[k].Under
    ensures Covering(stats, n, element) == Covering(other, n, element)
  {
    if n > 0 {
      CoveringSame(stats, other, n - 1, element);
    }
  }

  lemma {:induction false} CoveringRemoved(stats: seq<TStat>, other: seq<TStat>, n: nat, id: nat, element: Byte)
    requires id < n <= |stats| && n - 1 <= |other|
    requires forall k :: 0 <= k < n - 1 ==> other[k].Under == stats[KeyBefore(k, id)].Under
    ensures Covering(stats, n, element) == Covering(other, n - 1, element) + Unit(stats[id].Under.Element == element)
  {
    if id == n - 1 {
      CoveringSame(stats, other, n - 1, element);
    } else {
      CoveringRemoved(stats, other, n - 1, id, element);
    }
  }

  lemma RemoveStatLosesTheTile(b: BoardState, id: int, element: Byte)
    requires Valid(b) && 0 <= id <= b.count
    ensures Total(RemoveStat(b, id), element) + Unit(Element(b, b.stats[id].X, b.stats[id].Y) == element) ==
      Total(b, element)
  {
    hide RemoveStat;
    var r, s := RemoveStat(b, id), b.stats[id];
    RestOfRemoval(b, id);
    forall k | 0 <= k < b.count
      ensures r.stats[k].Under == b.stats[KeyBefore(k, id)].Under
    {
      SurvivorSlot(b, id, KeyBefore(k, id));
    }
    CoveringRemoved(b.stats, r.stats, b.count + 1, id, element);
    TileUpdate(b.tiles, (s.X as int, s.Y as int), s.Under, element);
  }

  lemma MoveStatConserves(b: BoardState, id: int, newX: int, newY: int, element: Byte)
    requires Valid(b) && 0 <= id <= b.count && InGrid(newX, newY)
    ensures Total(MoveStat(b, id, newX, newY), element) == Total(b, element)
  {
    var s := b.stats[id];
    var ground, here := b.tiles[(newX, newY)], (s.X as int, s.Y as int);
    var arrived := b.tiles[(newX, newY) := ArrivedTile(b.tiles[here], ground)];
    TileUpdate(b.tiles, (newX, newY), ArrivedTile(b.tiles[here], ground), element);
    TileUpdate(arrived, here, s.Under, element);
    CoveringUpdate(b.stats, b.count + 1, id, s.(Under := ground, X := newX, Y := newY), element);
  }

  lemma ElementMoveConserves(b: BoardState, oldX: int, oldY: int, newX: int, newY: int, element: Byte)
    requires Valid(b) && InGrid(newX, newY) && Element(b, newX, newY) != element && element != E_EMPTY
    requires ElementMove(b, oldX, oldY, newX, newY).Done?
    ensures Total(ElementMove(b, oldX, oldY, newX, newY).board, element) == Total(b, element)
  {
    var id := StatAt(b, oldX, oldY);
    if id >= 0 {
      MoveStatConserves(b, id, newX, newY, element);
    } else {
      var moved := b.tiles[(newX, newY) := b.tiles[(oldX, oldY)]];
      TileUpdate(b.tiles, (newX, newY), b.tiles[(oldX, oldY)], element);
      TileUpdate(moved, (oldX, oldY), moved[(oldX, oldY)].(Element := E_EMPTY), element);
    }
  }

  lemma DamageTileConserves(b: BoardState, x: int, y: int, element: Byte)
    requires Valid(b) && InGrid(x, y) && Element(b, x, y) != element && element != E_EMPTY
    ensures Total(DamageTile(b, x, y), element) == Total(b, element)
  {
    var id := StatAt(b, x, y);
    if id >= 0 {
      RemoveStatLosesTheTile(b, id, element);
    } else {
      TileUpdate(b.tiles, (x, y), b.tiles[(x, y)].(Element := E_EMPTY), element);
    }
  }

  /** Everything but open ground (0 empty, 27 fake) and what a push can crush (7 gem,
      18 bullet, 34 bear, 35 ruffian, 41 lion, 42 tiger, 44 and 45 centipede). */
  predicate Lasting(element: Byte) {
    element !in {0, 27, 7, 18, 34, 35, 41, 42, 44, 45}
  }

  lemma FollowConserves(b: BoardState, x: int, y: int, dx: int, dy: int, element: Byte)
    requires Valid(b) && InGrid(x, y) && InGrid(x + dx, y + dy) && Lasting(element)
    requires Follow(b, x, y, dx, dy).Done?
    ensures Total(Follow(b, x, y, dx, dy).board, element) == Total(b, element)
  {
    hide Total, ElementMove, DamageTile;
    if Crushable(Element(b, x + dx, y + dy)) {
      DamageTileConserves(b, x + dx, y + dy, element);
    }
    var crushed := if Crushable(Element(b, x + dx, y + dy)) then DamageTile(b, x + dx, y + dy) else b;
    if Walkable(Element(crushed, x + dx, y + dy)) {
      ElementMoveConserves(crushed, x, y, x + dx, y + dy, element);
    }
  }

  lemma {:induction false} PushConserves(b: BoardState, x: int, y: int, dx: int, dy: int, element: Byte)
    requires Valid(b) && UnitStep(dx, dy) && Lasting(element)
    requires Push(b, x, y, dx, dy).Done?
    ensures Total(Push(b, x, y, dx, dy).board, element) == Total(b, element)
    decreases Room(x, y, dx, dy), 2
  {
    hide Total, Follow, Transport;
    if PushableAlong(Element(b, x, y), dx, dy) {
      var ahead := Element(b, x + dx, y + dy);
      var cleared := b;
      if ahead == E_TRANSPORTER {
        TransportConserves(b, x, y, dx, dy, element);
        cleared := Transport(b, x, y, dx, dy).board;
      } else if ahead != E_EMPTY {
        PushConserves(b, x + dx, y + dy, dx, dy, element);
        cleared := Push(b, x + dx, y + dy, dx, dy).board;
      }
      FollowConserves(cleared, x, y, dx, dy, element);
    }
  }

  lemma {:induction false} TransportConserves(b: BoardState, x: int, y: int, dx: int, dy: int, element: Byte)
    requires Valid(b) && UnitStep(dx, dy) && InGrid(x, y) && Lasting(element)
    requires Transport(b, x, y, dx, dy).Done?
    ensures Total(Transport(b, x, y, dx, dy).board, element) == Total(b, element)
    decreases Room(x, y, dx, dy), 1
  {
    hide Total, ElementMove, Search;
    var slot := StatAt(b, x + dx, y + dy);
    if b.stats[slot].StepX == dx && b.stats[slot].StepY == dy {
      SearchConserves(b, x + dx, y + dy, dx, dy, true, element);
      match Search(b, x + dx, y + dy, dx, dy, true)
      case Found(c, newX, newY) =>
        ElementMoveConserves(c, c.stats[slot].X - dx, c.stats[slot].Y - dy, newX, newY, element);
      case _ =>
    }
  }

  lemma {:induction false} SearchConserves(b: BoardState, ix: int, iy: int, dx: int, dy: int, validDest: bool,
          element: Byte)
    requires Valid(b) && UnitStep(dx, dy) && InGrid(ix, iy) && Lasting(element)
    ensures var r := Search(b, ix, iy, dx, dy, validDest);
      !r.SearchPanic? ==> Total(r.board, element) == Total(b, element)
    decreases Room(ix, iy, dx, dy), 0
  {
    hide Total, Push, Search, Walkable;
    var x, y := ix + dx, iy + dy;
    if !Search(b, ix, iy, dx, dy, validDest).SearchPanic? {
      SearchUnfolds(b, ix, iy, dx, dy, validDest);
      if Element(b, x, y) != E_BOARD_EDGE {
        if validDest && !Walkable(Element(b, x, y)) {
          PushConserves(b, x, y, dx, dy, element);
        }
        var c := Tried(b, x, y, dx, dy, validDest).board;
        SearchConserves(c, x, y, dx, dy, Opposite(c, x, y, dx, dy), element);
      }
    }
  }
}
