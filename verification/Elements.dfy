/** Pushing in place (engine/elements.go), on the engine's own tiles and stats.
    Each procedure is proved to do what `PushSpec` says from a steady board. */
module Elements {
  import opened GameVars
  import B = BoardSpec
  import P = PushSpec
  import opened PushSafety
  import PushLaws
  import opened Game

  /** Destroys what is on a square that shows no player. */
  method BoardDamageTile(e: Engine, x: int, y: int)
    requires e.Ok() && InGrid(x, y) && e.Tiles[x, y].Element != E_PLAYER
    modifies e`StatCount, e`Players, e`CurrentStatTicked, e.Stats, e.Tiles, e.ScrollAudience
    ensures e.Ok() && e.Value() == P.DamageTile(old(e.Value()), x, y)
  {
    var id := e.GetStatIdAt(x, y);
    if id != -1 {
      e.RemoveStat(id);
    } else {
      e.SetTile(x, y, e.Tiles[x, y].(Element := E_EMPTY));
    }
  }

  method ElementMove(e: Engine, oldX: int, oldY: int, newX: int, newY: int)
    requires e.Ok() && InGrid(newX, newY) && P.ElementMove(e.Value(), oldX, oldY, newX, newY).Done?
    modifies e.Stats, e.Tiles
    ensures e.Ok() && P.Done(e.Value()) == P.ElementMove(old(e.Value()), oldX, oldY, newX, newY)
  {
    var id := e.GetStatIdAt(oldX, oldY);
    if id >= 0 {
      e.MoveStat(id, newX, newY);
    } else {
      e.SetTile(newX, newY, e.Tiles[oldX, oldY]);
      e.SetTile(oldX, oldY, e.Tiles[oldX, oldY].(Element := E_EMPTY));
    }
  }

  method ElementPushablePush(e: Engine, x: int, y: int, dx: int, dy: int)
    requires e.Ok() && P.UnitStep(dx, dy) && P.Push(e.Value(), x, y, dx, dy).Done?
    modifies e`StatCount, e`Players, e`CurrentStatTicked, e.Stats, e.Tiles, e.ScrollAudience
    ensures e.Ok() && P.Done(e.Value()) == P.Push(old(e.Value()), x, y, dx, dy)
    ensures PushLaws.ObeysLaws(old(e.Value()), e.Value(), x, y, dx, dy)
    decreases P.Room(x, y, dx, dy), 2
  {
    hide P.Push, P.Cleared, P.Follow, B.Valid, PushLaws.ObeysLaws;
    P.PushUnfolds(e.Value(), x, y, dx, dy);
    PushLaws.PushObeysLaws(e.Value(), x, y, dx, dy);
    e.GridAt(x, y);
    var element := e.Tiles[x, y].Element;
    if (element == E_SLIDER_NS && dx == 0) || (element == E_SLIDER_EW && dy == 0) || Pushable(element) {
      ClearAhead(e, x, y, dx, dy);
      Follow(e, x, y, dx, dy);
    }
  }

  /** The first half of ElementPushablePush: what lies ahead is sent on. */
  method ClearAhead(e: Engine, x: int, y: int, dx: int, dy: int)
    requires e.Ok() && P.UnitStep(dx, dy) && InGrid(x, y) && InGrid(x + dx, y + dy)
    requires P.Cleared(e.Value(), x, y, dx, dy).Done?
    modifies e`StatCount, e`Players, e`CurrentStatTicked, e.Stats, e.Tiles, e.ScrollAudience
    ensures e.Ok() && P.Done(e.Value()) == P.Cleared(old(e.Value()), x, y, dx, dy)
    decreases P.Room(x, y, dx, dy), 1
  {
    hide P.Push, P.Transport, B.Valid, PushLaws.ObeysLaws;
    e.GridAt(x + dx, y + dy);
    if e.Tiles[x + dx, y + dy].Element == E_TRANSPORTER {
      ElementTransporterMove(e, x, y, dx, dy);
    } else if e.Tiles[x + dx, y + dy].Element != E_EMPTY {
      ElementPushablePush(e, x + dx, y + dy, dx, dy);
    }
  }

  /** The end of ElementPushablePush. */
  method Follow(e: Engine, x: int, y: int, dx: int, dy: int)
    requires e.Ok() && InGrid(x, y) && InGrid(x + dx, y + dy) && P.Follow(e.Value(), x, y, dx, dy).Done?
    modifies e`StatCount, e`Players, e`CurrentStatTicked, e.Stats, e.Tiles, e.ScrollAudience
    ensures e.Ok() && P.Done(e.Value()) == P.Follow(old(e.Value()), x, y, dx, dy)
  {
    hide P.ElementMove, P.DamageTile, B.Valid;
    e.GridAt(x + dx, y + dy);
    var ahead := e.Tiles[x + dx, y + dy].Element;
    if !Walkable(ahead) && Destructible(ahead) && ahead != E_PLAYER {
      BoardDamageTile(e, x + dx, y + dy);
    }
    e.GridAt(x + dx, y + dy);
    if Walkable(e.Tiles[x + dx, y + dy].Element) {
      ElementMove(e, x, y, x + dx, y + dy);
    }
  }

  method ElementTransporterMove(e: Engine, x: int, y: int, dx: int, dy: int)
    requires e.Ok() && P.UnitStep(dx, dy) && InGrid(x, y) && P.Transport(e.Value(), x, y, dx, dy).Done?
    modifies e`StatCount, e`Players, e`CurrentStatTicked, e.Stats, e.Tiles, e.ScrollAudience
    ensures e.Ok() && P.Done(e.Value()) == P.Transport(old(e.Value()), x, y, dx, dy)
    decreases P.Room(x, y, dx, dy), 0
  {
    hide P.Transport, P.Search, P.ElementMove, B.Valid;
    P.TransportUnfolds(e.Value(), x, y, dx, dy);
    var slot := e.GetStatIdAt(x + dx, y + dy);
    if dx == e.Stats[slot].StepX && dy == e.Stats[slot].StepY {
      var newX, newY := FindDestination(e, e.Stats[slot].X, e.Stats[slot].Y, dx, dy);
      if newX != -1 {
        ElementMove(e, e.Stats[slot].X - dx, e.Stats[slot].Y - dy, newX, newY);
      }
    }
  }

  /** The search loop of ElementTransporterMove: newX is -1 when it meets the edge. */
  method FindDestination(e: Engine, startX: int, startY: int, dx: int, dy: int) returns (newX: int, newY: int)
    requires e.Ok() && P.UnitStep(dx, dy) && InGrid(startX, startY)
    requires !P.Search(e.Value(), startX, startY, dx, dy, true).SearchPanic?
    modifies e`StatCount, e`Players, e`CurrentStatTicked, e.Stats, e.Tiles, e.ScrollAudience
    ensures e.Ok() && P.Search(old(e.Value()), startX, startY, dx, dy, true)
      == if newX == -1 then P.Missed(e.Value()) else P.Found(e.Value(), newX, newY)
    decreases P.Room(startX, startY, dx, dy), 4
  {
    hide P.Search, B.Valid;
    var ix, iy := startX, startY;
    newX, newY := -1, -1;
    var finishSearch, isValidDest := false, true;
    ghost var whole := P.Search(e.Value(), ix, iy, dx, dy, true);
    while !finishSearch
      invariant e.Ok() && !whole.SearchPanic? && InGrid(ix, iy)
      invariant P.Room(ix, iy, dx, dy) <= P.Room(startX, startY, dx, dy)
      invariant !finishSearch ==> newX == -1 && P.Search(e.Value(), ix, iy, dx, dy, isValidDest) == whole
      invariant finishSearch ==> whole == if newX == -1 then P.Missed(e.Value()) else P.Found(e.Value(), newX, newY)
      decreases if finishSearch then 0 else 1 + P.Room(ix, iy, dx, dy)
    {
      P.SearchUnfolds(e.Value(), ix, iy, dx, dy, isValidDest);
      ix, iy := ix + dx, iy + dy;
      e.GridAt(ix, iy);
      if e.Tiles[ix, iy].Element == E_BOARD_EDGE {
        finishSearch := true;
      } else {
        var open := TryDestination(e, ix, iy, dx, dy, isValidDest);
        if open {
          finishSearch := true;
          newX, newY := ix, iy;
        } else {
          isValidDest := IsOpposite(e, ix, iy, dx, dy);
        }
      }
    }
  }

  /** One square of the search: with a valid destination ahead, make room on it if need be. */
  method TryDestination(e: Engine, x: int, y: int, dx: int, dy: int, isValidDest: bool) returns (open: bool)
    requires e.Ok() && P.UnitStep(dx, dy) && InGrid(x, y) && P.Tried(e.Value(), x, y, dx, dy, isValidDest).Done?
    modifies e`StatCount, e`Players, e`CurrentStatTicked, e.Stats, e.Tiles, e.ScrollAudience
    ensures e.Ok() && P.Done(e.Value()) == P.Tried(old(e.Value()), x, y, dx, dy, isValidDest)
    ensures open == (isValidDest && Walkable(P.Element(e.Value(), x, y)))
    decreases P.Room(x, y, dx, dy), 3
  {
    hide P.Push, B.Valid;
    e.GridAt(x, y);
    if isValidDest && !Walkable(e.Tiles[x, y].Element) {
      ElementPushablePush(e, x, y, dx, dy);
    }
    e.GridAt(x, y);
    open := isValidDest && Walkable(e.Tiles[x, y].Element);
  }

  method IsOpposite(e: Engine, x: int, y: int, dx: int, dy: int) returns (r: bool)
    requires e.Ok() && InGrid(x, y)
    requires P.Element(e.Value(), x, y) == E_TRANSPORTER ==> B.StatAt(e.Value(), x, y) >= 0
    ensures r == P.Opposite(e.Value(), x, y, dx, dy)
  {
    hide B.Valid;
    r := false;
    e.GridAt(x, y);
    if e.Tiles[x, y].Element == E_TRANSPORTER {
      var id := e.GetStatIdAt(x, y);
      r := e.Stats[id].StepX == -dx && e.Stats[id].StepY == -dy;
    }
  }

  /** The caller's view: on a steady board the push runs, and the frame, the other
      rows or columns and the transporters are untouched. */
  method PushOnSteadyBoard(e: Engine, x: int, y: int, dx: int, dy: int)
    requires P.UnitStep(dx, dy) && OnBoard(x, y) && e.Ok() && Steady(e.Value(), Line(x, y, dx), dx, dy)
    modifies e`StatCount, e`Players, e`CurrentStatTicked, e.Stats, e.Tiles, e.ScrollAudience
    ensures e.Ok() && Steady(e.Value(), Line(x, y, dx), dx, dy)
      && Kept(old(e.Value()), e.Value(), Line(x, y, dx), dx, dy)
  {
    PushSteady(e.Value(), x, y, dx, dy);
    ElementPushablePush(e, x, y, dx, dy);
  }
}
