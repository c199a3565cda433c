/** On a framed board no push indexes outside the arrays or touches the frame,
    provided the stats a push may crush come after the transporters it may use.
    Without that proviso it can: `SlotReuseBreaksTheFrame`. */
module PushSafety {
  import opened GameVars
  import opened BoardSpec
  import opened PushSpec
  import opened StatTable

  /** Edge tiles all round; only the corner (0, 0) is ever used for something else. */
  ghost predicate Framed(b: BoardState)
    requires Valid(b)
  {
    forall x, y :: InGrid(x, y) && !OnBoard(x, y) && (x, y) != (0, 0) ==> Element(b, x, y) == E_BOARD_EDGE
  }

  ghost predicate Backed(b: BoardState)
    requires Valid(b)
  {
    forall x, y :: InGrid(x, y) && Element(b, x, y) == E_TRANSPORTER ==> StatAt(b, x, y) >= 0
  }

  function StatTile(b: BoardState, i: int): Byte
    requires 0 <= i < |b.stats| && (b.stats[i].X as int, b.stats[i].Y as int) in b.tiles
  {
    Element(b, b.stats[i].X, b.stats[i].Y)
  }

  /** Stats stand on solid tiles of their own, and none covers a transporter. */
  ghost predicate WellSeated(b: BoardState)
    requires Valid(b)
  {
    && OnePerSquare(b)
    && forall i :: 0 <= i <= b.count ==> !Walkable(StatTile(b, i)) && b.stats[i].Under.Element != E_TRANSPORTER
  }

  /** The row or column a step along (dx, dy) stays in. */
  function Line(x: int, y: int, dx: int): int {
    if dx == 0 then x else y
  }

  predicate StatInLine(b: BoardState, i: int, line: int, dx: int)
    requires 0 <= i < |b.stats|
  {
    Line(b.stats[i].X, b.stats[i].Y, dx) == line
  }

  /** A transporter of the row or column that carries things along (dx, dy). */
  predicate Facing(b: BoardState, j: int, line: int, dx: int, dy: int)
    requires 0 <= j < |b.stats| && (b.stats[j].X as int, b.stats[j].Y as int) in b.tiles
  {
    StatInLine(b, j, line, dx) && StatTile(b, j) == E_TRANSPORTER && b.stats[j].StepX == dx && b.stats[j].StepY == dy
  }

  /** No stat that could be crushed has a lower number than a transporter in use. */
  ghost predicate Undisturbed(b: BoardState, line: int, dx: int, dy: int)
    requires Valid(b)
  {
    forall i, j ::
      (0 <= i <= b.count && 0 <= j <= b.count &&
       StatInLine(b, i, line, dx) && Crushable(StatTile(b, i)) && Facing(b, j, line, dx, dy)) ==> j < i
  }

  ghost predicate Steady(b: BoardState, line: int, dx: int, dy: int) {
    Valid(b) && Framed(b) && Backed(b) && WellSeated(b) && Undisturbed(b, line, dx, dy)
  }

  /** What a push along the line through (x, y) leaves alone. */
  ghost predicate Kept(b: BoardState, c: BoardState, line: int, dx: int, dy: int)
    requires Valid(b) && Valid(c)
  {
    && c.count <= b.count
    && (forall px, py :: InGrid(px, py) ==>
      && (!OnBoard(px, py) || Line(px, py, dx) != line ==> c.tiles[(px, py)] == b.tiles[(px, py)])
      && (Element(c, px, py) == E_TRANSPORTER <==> Element(b, px, py) == E_TRANSPORTER))
    && (forall j :: 0 <= j <= b.count && Facing(b, j, line, dx, dy) ==>
          j <= c.count && SamePlace(b.stats[j], c.stats[j]))
  }

  predicate SamePlace(s: TStat, t: TStat) {
    s.X == t.X && s.Y == t.Y && s.StepX == t.StepX && s.StepY == t.StepY
  }

  lemma KeptTransitive(b: BoardState, c: BoardState, d: BoardState, line: int, dx: int, dy: int)
    requires Valid(b) && Valid(c) && Valid(d)
    requires Kept(b, c, line, dx, dy) && Kept(c, d, line, dx, dy)
    ensures Kept(b, d, line, dx, dy)
  {
  }

  /** Where a push may move a stat: along the line, from a square that is no transporter onto open ground. */
  ghost predicate MayMove(b: BoardState, id: int, newX: int, newY: int, dx: int, dy: int) {
    && UnitStep(dx, dy) && OnBoard(newX, newY) && Steady(b, Line(newX, newY, dx), dx, dy) && 0 <= id <= b.count
    && OnBoard(b.stats[id].X, b.stats[id].Y) && StatInLine(b, id, Line(newX, newY, dx), dx)
    && StatTile(b, id) != E_TRANSPORTER && Walkable(Element(b, newX, newY))
  }

  lemma MoveStatTiles(b: BoardState, id: int, newX: int, newY: int, dx: int, dy: int)
    requires MayMove(b, id, newX, newY, dx, dy)
    ensures var c := MoveStat(b, id, newX, newY);
      && WellSeated(c)
      && (forall i :: 0 <= i <= b.count ==> StatTile(c, i) == StatTile(b, i))
      && (forall x, y :: InGrid(x, y) ==> (Element(c, x, y) == E_TRANSPORTER <==> Element(b, x, y) == E_TRANSPORTER))
  {
    hide LowNibble, Background, StatAt;
  }

  lemma MoveStatKept(b: BoardState, id: int, newX: int, newY: int, dx: int, dy: int)
    requires MayMove(b, id, newX, newY, dx, dy)
    ensures Framed(MoveStat(b, id, newX, newY)) && Kept(b, MoveStat(b, id, newX, newY), Line(newX, newY, dx), dx, dy)
  {
    MoveStatTiles(b, id, newX, newY, dx, dy);
    hide LowNibble, Background, StatAt, Backed, WellSeated, Undisturbed;
  }

  lemma MoveStatUndisturbed(b: BoardState, id: int, newX: int, newY: int, dx: int, dy: int)
    requires MayMove(b, id, newX, newY, dx, dy)
    ensures Undisturbed(MoveStat(b, id, newX, newY), Line(newX, newY, dx), dx, dy)
  {
    MoveStatTiles(b, id, newX, newY, dx, dy);
    hide LowNibble, Background, StatAt, Backed, WellSeated, Framed;
    var c := MoveStat(b, id, newX, newY);
    forall i, j | 0 <= i <= b.count && 0 <= j <= b.count && Crushable(StatTile(c, i))
      && StatInLine(c, i, Line(newX, newY, dx), dx) && Facing(c, j, Line(newX, newY, dx), dx, dy)
      ensures j < i
    {
      assert Crushable(StatTile(b, i)) && StatInLine(b, i, Line(newX, newY, dx), dx)
          && Facing(b, j, Line(newX, newY, dx), dx, dy);
    }
  }

  lemma MoveStatBacked(b: BoardState, id: int, newX: int, newY: int, dx: int, dy: int)
    requires MayMove(b, id, newX, newY, dx, dy)
    ensures Backed(MoveStat(b, id, newX, newY))
  {
    var c := MoveStat(b, id, newX, newY);
    MoveStatTiles(b, id, newX, newY, dx, dy);
    hide Undisturbed, Framed, ArrivedTile;
    forall x, y | InGrid(x, y) && Element(c, x, y) == E_TRANSPORTER
      ensures StatAt(c, x, y) >= 0
    {
      assert StatAt(b, x, y) >= 0;
      NoStatAt(c, x, y);
      assert c.stats[StatAt(b, x, y)] == b.stats[StatAt(b, x, y)];
    }
  }

  /** ElementMove on the line, with or without a stat on the square left behind. */
  lemma ElementMoveSteady(b: BoardState, x: int, y: int, newX: int, newY: int, dx: int, dy: int)
    requires UnitStep(dx, dy) && OnBoard(x, y) && OnBoard(newX, newY) && (x, y) != (newX, newY)
    requires Steady(b, Line(x, y, dx), dx, dy) && Line(newX, newY, dx) == Line(x, y, dx)
    requires Element(b, x, y) != E_TRANSPORTER && Walkable(Element(b, newX, newY))
    ensures var r := ElementMove(b, x, y, newX, newY);
      r.Done? && Steady(r.board, Line(x, y, dx), dx, dy) && Kept(b, r.board, Line(x, y, dx), dx, dy)
  {
    hide MoveStat;
    var id := StatAt(b, x, y);
    if id >= 0 {
      MoveStatTiles(b, id, newX, newY, dx, dy);
      MoveStatBacked(b, id, newX, newY, dx, dy);
      MoveStatKept(b, id, newX, newY, dx, dy);
      MoveStatUndisturbed(b, id, newX, newY, dx, dy);
    } else {
      NoStatAt(b, x, y);
      MoveTileSteady(b, ElementMove(b, x, y, newX, newY).board, x, y, newX, newY, dx, dy);
    }
  }

  /** Changing tiles no stat stands on, none of them a transporter before or after. */
  ghost predicate MayRetile(b: BoardState, c: BoardState, x: int, y: int, newX: int, newY: int, dx: int, dy: int) {
    && Valid(c) && Steady(b, Line(x, y, dx), dx, dy) && c == b.(tiles := c.tiles)
    && OnBoard(x, y) && OnBoard(newX, newY) && Line(newX, newY, dx) == Line(x, y, dx)
    && Unoccupied(b, x, y) && Unoccupied(b, newX, newY)
    && (forall px, py :: InGrid(px, py) && (px, py) != (x, y) && (px, py) != (newX, newY) ==>
          c.tiles[(px, py)] == b.tiles[(px, py)])
    && (forall px, py :: (px, py) == (x, y) || (px, py) == (newX, newY) ==>
      Element(b, px, py) != E_TRANSPORTER && Element(c, px, py) != E_TRANSPORTER)
  }

  lemma RetiledSeats(b: BoardState, c: BoardState, x: int, y: int, newX: int, newY: int, dx: int, dy: int)
    requires MayRetile(b, c, x, y, newX, newY, dx, dy)
    ensures WellSeated(c) && Framed(c)
    ensures forall i :: 0 <= i <= b.count ==> StatTile(c, i) == StatTile(b, i)
  {
    hide StatAt, Backed, Undisturbed, Walkable;
    assert forall i :: 0 <= i <= b.count ==> StatTile(c, i) == StatTile(b, i);
  }

  lemma RetiledUndisturbed(b: BoardState, c: BoardState, line: int, dx: int, dy: int)
    requires Valid(b) && Valid(c) && c == b.(tiles := c.tiles) && Undisturbed(b, line, dx, dy)
    requires forall i :: 0 <= i <= b.count ==> StatTile(c, i) == StatTile(b, i)
    ensures Undisturbed(c, line, dx, dy)
    ensures forall i :: 0 <= i <= b.count ==> Facing(c, i, line, dx, dy) == Facing(b, i, line, dx, dy)
  {
    assert forall i :: 0 <= i <= b.count ==> Facing(c, i, line, dx, dy) == Facing(b, i, line, dx, dy);
  }

  lemma RetiledBacked(b: BoardState, c: BoardState, x: int, y: int, newX: int, newY: int, dx: int, dy: int)
    requires MayRetile(b, c, x, y, newX, newY, dx, dy)
    ensures Backed(c)
  {
    hide WellSeated, Undisturbed, Framed;
    assert forall px, py :: InGrid(px, py) ==> StatAt(c, px, py) == StatAt(b, px, py);
  }

  lemma MoveTileSteady(b: BoardState, c: BoardState, x: int, y: int, newX: int, newY: int, dx: int, dy: int)
    requires MayRetile(b, c, x, y, newX, newY, dx, dy)
    ensures Steady(c, Line(x, y, dx), dx, dy) && Kept(b, c, Line(x, y, dx), dx, dy)
  {
    RetiledSeats(b, c, x, y, newX, newY, dx, dy);
    RetiledUndisturbed(b, c, Line(x, y, dx), dx, dy);
    RetiledBacked(b, c, x, y, newX, newY, dx, dy);
    hide StatAt, WellSeated, Undisturbed, Framed, Backed, Unoccupied;
  }

  /** The parts of a removal that matter to pushes. */
  ghost predicate RemovedAs(b: BoardState, c: BoardState, id: int) {
    && Valid(b) && Valid(c) && 0 <= id <= b.count && c.count == b.count - 1
    && c.tiles == b.tiles[(b.stats[id].X, b.stats[id].Y) := b.stats[id].Under]
    && forall k :: 0 <= k <= c.count ==> SameStat(c.stats[k], b.stats[KeyBefore(k, id)])
  }

  lemma RemoveStatAs(b: BoardState, id: int)
    requires Valid(b) && 0 <= id <= b.count
    ensures RemovedAs(b, RemoveStat(b, id), id)
  {
    hide RemoveStat;
    RestOfRemoval(b, id);
    forall k | 0 <= k < b.count
      ensures SameStat(RemoveStat(b, id).stats[k], b.stats[KeyBefore(k, id)])
    {
      SurvivorSlot(b, id, KeyBefore(k, id));
    }
  }

  /** Removing a stat a push may crush. */
  ghost predicate MayCrush(b: BoardState, c: BoardState, id: int, line: int, dx: int, dy: int) {
    && RemovedAs(b, c, id) && Steady(b, line, dx, dy) && UnitStep(dx, dy)
    && OnBoard(b.stats[id].X, b.stats[id].Y) && StatInLine(b, id, line, dx) && Crushable(StatTile(b, id))
  }

  lemma CrushedSeats(b: BoardState, c: BoardState, id: int, line: int, dx: int, dy: int)
    requires MayCrush(b, c, id, line, dx, dy)
    ensures WellSeated(c)
    ensures forall k :: 0 <= k <= c.count ==> StatTile(c, k) == StatTile(b, KeyBefore(k, id))
  {
    hide StatAt, Undisturbed, Framed, Backed;
    forall k | 0 <= k <= c.count
      ensures StatTile(c, k) == StatTile(b, KeyBefore(k, id))
      ensures !Walkable(StatTile(c, k)) && c.stats[k].Under.Element != E_TRANSPORTER
    {
      assert SameStat(c.stats[k], b.stats[KeyBefore(k, id)]);
    }
    assert OnePerSquare(c) by {
      forall i, j | 0 <= i < j <= c.count
        ensures c.stats[i].X != c.stats[j].X || c.stats[i].Y != c.stats[j].Y
      {
        assert SameStat(c.stats[i], b.stats[KeyBefore(i, id)]) && SameStat(c.stats[j], b.stats[KeyBefore(j, id)]);
      }
    }
  }

  lemma CrushedKept(b: BoardState, c: BoardState, id: int, line: int, dx: int, dy: int)
    requires MayCrush(b, c, id, line, dx, dy)
    ensures Framed(c) && Kept(b, c, line, dx, dy)
  {
    hide StatAt, Backed, OnePerSquare;
    forall j | 0 <= j <= b.count && Facing(b, j, line, dx, dy)
      ensures j <= c.count && SamePlace(b.stats[j], c.stats[j])
    {
      assert j < id;
      assert SameStat(c.stats[j], b.stats[KeyBefore(j, id)]);
    }
  }

  lemma CrushedUndisturbed(b: BoardState, c: BoardState, id: int, line: int, dx: int, dy: int)
    requires MayCrush(b, c, id, line, dx, dy)
    ensures Undisturbed(c, line, dx, dy)
  {
    CrushedSeats(b, c, id, line, dx, dy);
    hide StatAt, Backed, WellSeated, Framed;
    forall i, j | 0 <= i <= c.count && 0 <= j <= c.count && Crushable(StatTile(c, i))
      && StatInLine(c, i, line, dx) && Facing(c, j, line, dx, dy)
      ensures j < i
    {
      var i', j' := KeyBefore(i, id), KeyBefore(j, id);
      assert SameStat(c.stats[i], b.stats[i']) && SameStat(c.stats[j], b.stats[j']);
      assert Crushable(StatTile(b, i')) && StatInLine(b, i', line, dx) && Facing(b, j', line, dx, dy);
      assert Facing(b, j', line, dx, dy) && StatInLine(b, id, line, dx);
      assert j' < id;
    }
  }

  lemma CrushedBacked(b: BoardState, c: BoardState, id: int, line: int, dx: int, dy: int)
    requires MayCrush(b, c, id, line, dx, dy)
    ensures Backed(c)
  {
    hide Undisturbed, Framed;
    forall px, py | InGrid(px, py) && Element(c, px, py) == E_TRANSPORTER
      ensures StatAt(c, px, py) >= 0
    {
      var s := StatAt(b, px, py);
      NoStatAt(c, px, py);
      assert s >= 0 && s != id;
      assert KeyBefore(Renamed(s, id), id) == s;
      assert SameStat(c.stats[Renamed(s, id)], b.stats[s]);
    }
  }

  lemma DamageTileSteady(b: BoardState, x: int, y: int, dx: int, dy: int)
    requires UnitStep(dx, dy) && OnBoard(x, y) && Steady(b, Line(x, y, dx), dx, dy) && Crushable(Element(b, x, y))
    ensures Steady(DamageTile(b, x, y), Line(x, y, dx), dx, dy) && Kept(b, DamageTile(b, x, y), Line(x, y, dx), dx, dy)
  {
    hide RemoveStat;
    var id := StatAt(b, x, y);
    var c := DamageTile(b, x, y);
    if id >= 0 {
      RemoveStatAs(b, id);
      CrushedSeats(b, c, id, Line(x, y, dx), dx, dy);
      CrushedKept(b, c, id, Line(x, y, dx), dx, dy);
      CrushedUndisturbed(b, c, id, Line(x, y, dx), dx, dy);
      CrushedBacked(b, c, id, Line(x, y, dx), dx, dy);
    } else {
      NoStatAt(b, x, y);
      MoveTileSteady(b, c, x, y, x, y, dx, dy);
    }
  }

  // ---- The three procedures ----------------------------------------------

  /** A step that did not panic, kept the board steady and left the rest alone. */
  ghost predicate Carried(b: BoardState, o: Outcome, line: int, dx: int, dy: int) {
    Valid(b) && o.Done? && Steady(o.board, line, dx, dy) && Kept(b, o.board, line, dx, dy)
  }

  lemma NextCell(b: BoardState, x: int, y: int, dx: int, dy: int)
    requires UnitStep(dx, dy) && OnBoard(x, y) && Steady(b, Line(x, y, dx), dx, dy)
    ensures InGrid(x, y) && InGrid(x + dx, y + dy) && Line(x + dx, y + dy, dx) == Line(x, y, dx)
    ensures Room(x + dx, y + dy, dx, dy) < Room(x, y, dx, dy)
    ensures Valid(b) && (x, y) in b.tiles && (x + dx, y + dy) in b.tiles && b.count < |b.stats|
    ensures Element(b, x + dx, y + dy) != E_BOARD_EDGE ==> OnBoard(x + dx, y + dy)
    ensures StatAt(b, x + dx, y + dy) < |b.stats|
    ensures Element(b, x + dx, y + dy) == E_TRANSPORTER ==> StatAt(b, x + dx, y + dy) >= 0
    ensures Kept(b, b, Line(x, y, dx), dx, dy)
  {
  }

  lemma KeptCell(b: BoardState, c: BoardState, x: int, y: int, line: int, dx: int, dy: int)
    requires Valid(b) && Valid(c) && Kept(b, c, line, dx, dy) && InGrid(x, y)
    ensures (x, y) in b.tiles && (x, y) in c.tiles
    ensures Element(c, x, y) == E_TRANSPORTER <==> Element(b, x, y) == E_TRANSPORTER
  {
  }

  lemma FollowSteady(b: BoardState, x: int, y: int, dx: int, dy: int)
    requires UnitStep(dx, dy) && OnBoard(x, y) && Steady(b, Line(x, y, dx), dx, dy) && Element(b, x, y) != E_TRANSPORTER
    ensures InGrid(x + dx, y + dy) && Carried(b, Follow(b, x, y, dx, dy), Line(x, y, dx), dx, dy)
  {
    hide DamageTile, ElementMove, Backed, WellSeated, Undisturbed;
    var line := Line(x, y, dx);
    if Element(b, x + dx, y + dy) != E_BOARD_EDGE {
      assert OnBoard(x + dx, y + dy);
      var crushed := b;
      if Crushable(Element(b, x + dx, y + dy)) {
        DamageTileSteady(b, x + dx, y + dy, dx, dy);
        crushed := DamageTile(b, x + dx, y + dy);
      }
      if Walkable(Element(crushed, x + dx, y + dy)) {
        ElementMoveSteady(crushed, x, y, x + dx, y + dy, dx, dy);
        KeptTransitive(b, crushed, ElementMove(crushed, x, y, x + dx, y + dy).board, line, dx, dy);
      }
    }
  }

  /** From a steady board a push never panics, and leaves a steady board on which
      the frame, the other rows or columns and the transporters are what they were. */
  lemma {:induction false} PushSteady(b: BoardState, x: int, y: int, dx: int, dy: int)
    requires UnitStep(dx, dy) && OnBoard(x, y) && Steady(b, Line(x, y, dx), dx, dy)
    ensures Carried(b, Push(b, x, y, dx, dy), Line(x, y, dx), dx, dy)
    decreases Room(x, y, dx, dy), 2
  {
    hide Follow, Transport, Valid, Steady, Kept;
    var line := Line(x, y, dx);
    NextCell(b, x, y, dx, dy);
    if PushableAlong(Element(b, x, y), dx, dy) {
      var ahead := Element(b, x + dx, y + dy);
      var cleared := Done(b);
      if ahead == E_TRANSPORTER {
        TransportSteady(b, x, y, dx, dy);
        cleared := Transport(b, x, y, dx, dy);
      } else if ahead == E_BOARD_EDGE {
        assert Push(b, x + dx, y + dy, dx, dy) == Done(b);
      } else if ahead != E_EMPTY {
        PushSteady(b, x + dx, y + dy, dx, dy);
        cleared := Push(b, x + dx, y + dy, dx, dy);
      }
      KeptCell(b, cleared.board, x, y, line, dx, dy);
      FollowSteady(cleared.board, x, y, dx, dy);
      KeptTransitive(b, cleared.board, Follow(cleared.board, x, y, dx, dy).board, line, dx, dy);
    }
  }

  lemma {:induction false} TransportSteady(b: BoardState, x: int, y: int, dx: int, dy: int)
    requires UnitStep(dx, dy) && OnBoard(x, y) && Steady(b, Line(x, y, dx), dx, dy)
    requires InGrid(x + dx, y + dy) && Element(b, x + dx, y + dy) == E_TRANSPORTER && Element(b, x, y) != E_TRANSPORTER
    ensures Carried(b, Transport(b, x, y, dx, dy), Line(x, y, dx), dx, dy)
    decreases Room(x, y, dx, dy), 1
  {
    hide Search, ElementMove, Valid, Steady, Kept, StatAt;
    var line := Line(x, y, dx);
    NextCell(b, x, y, dx, dy);
    var slot := StatAt(b, x + dx, y + dy);
    if b.stats[slot].StepX == dx && b.stats[slot].StepY == dy {
      SearchSteady(b, x + dx, y + dy, dx, dy, true);
      match Search(b, x + dx, y + dy, dx, dy, true)
      case Found(c, newX, newY) =>
        KeptCell(b, c, x, y, line, dx, dy);
        SlotKept(b, c, slot, x + dx, y + dy, line, dx, dy);
        ElementMoveSteady(c, x, y, newX, newY, dx, dy);
        KeptTransitive(b, c, ElementMove(c, x, y, newX, newY).board, line, dx, dy);
      case _ =>
    }
  }

  /** The slot of a transporter in use still holds that transporter after the search. */
  lemma SlotKept(b: BoardState, c: BoardState, slot: int, x: int, y: int, line: int, dx: int, dy: int)
    requires Valid(b) && Valid(c) && Kept(b, c, line, dx, dy) && Line(x, y, dx) == line
    requires InGrid(x, y) && slot == StatAt(b, x, y) >= 0 && Element(b, x, y) == E_TRANSPORTER
    requires b.stats[slot].StepX == dx && b.stats[slot].StepY == dy
    ensures slot < |c.stats| && c.stats[slot].X == x && c.stats[slot].Y == y
  {
    assert Facing(b, slot, line, dx, dy);
  }

  lemma {:induction false} SearchSteady(b: BoardState, ix: int, iy: int, dx: int, dy: int, validDest: bool)
    requires UnitStep(dx, dy) && OnBoard(ix, iy) && Steady(b, Line(ix, iy, dx), dx, dy)
    ensures var r := Search(b, ix, iy, dx, dy, validDest);
      && !r.SearchPanic? && Carried(b, Done(r.board), Line(ix, iy, dx), dx, dy)
      && (r.Found? ==>
            && OnBoard(r.x, r.y) && Line(r.x, r.y, dx) == Line(ix, iy, dx)
            && Room(r.x, r.y, dx, dy) < Room(ix, iy, dx, dy))
    decreases Room(ix, iy, dx, dy), 0
  {
    hide Push, Search, Valid, Steady, Kept, StatAt, Walkable, Opposite;
    var line := Line(ix, iy, dx);
    var x, y := ix + dx, iy + dy;
    NextCell(b, ix, iy, dx, dy);
    SearchGoesOn(b, ix, iy, dx, dy, validDest);
    if Element(b, x, y) != E_BOARD_EDGE {
      if validDest && !Walkable(Element(b, x, y)) {
        PushSteady(b, x, y, dx, dy);
      }
      var c := Tried(b, x, y, dx, dy, validDest).board;
      NextCell(c, ix, iy, dx, dy);
      if !(validDest && Walkable(Element(c, x, y))) {
        var opposite := Opposite(c, x, y, dx, dy);
        SearchSteady(c, x, y, dx, dy, opposite);
        KeptTransitive(b, c, Search(c, x, y, dx, dy, opposite).board, line, dx, dy);
      }
    }
  }
}
