/** Pushing and transporters on board values (engine/elements.go): two mutually
    recursive procedures that walk along one row or column. */
module PushSpec {
  import opened GameVars
  import opened BoardSpec

  /** What a Go procedure leaves behind: a board, or an index out of range. */
  datatype Outcome = Done(board: BoardState) | Panic

  datatype SearchResult = Found(board: BoardState, x: int, y: int) | Missed(board: BoardState) | SearchPanic

  ghost predicate ValidOutcome(o: Outcome) {
    o.Done? ==> Valid(o.board)
  }

  predicate UnitStep(dx: int, dy: int) {
    (dx == 0 && (dy == 1 || dy == -1)) || (dy == 0 && (dx == 1 || dx == -1))
  }

  function Element(b: BoardState, x: int, y: int): Byte
    requires (x, y) in b.tiles
  {
    b.tiles[(x, y)].Element
  }

  /** How many cells lie ahead before the edge of the array. */
  function Room(x: int, y: int, dx: int, dy: int): int {
    if dx == 1 then GRID_W - 1 - x else if dx == -1 then x else if dy == 1 then GRID_H - 1 - y else y
  }

  /** BoardDamageTile on a square that shows no player. */
  ghost function DamageTile(b: BoardState, x: int, y: int): (r: BoardState)
    requires Valid(b) && InGrid(x, y)
    ensures Valid(r)
  {
    var id := StatAt(b, x, y);
    if id >= 0 then RemoveStat(b, id)
    else b.(tiles := b.tiles[(x, y) := b.tiles[(x, y)].(Element := E_EMPTY)])
  }

  ghost function ElementMove(b: BoardState, oldX: int, oldY: int, newX: int, newY: int): (r: Outcome)
    requires Valid(b) && InGrid(newX, newY)
    ensures ValidOutcome(r)
  {
    var id := StatAt(b, oldX, oldY);
    if id >= 0 then Done(MoveStat(b, id, newX, newY))
    else if !InGrid(oldX, oldY) then Panic
    else
      var moved := b.tiles[(newX, newY) := b.tiles[(oldX, oldY)]];
      Done(b.(tiles := moved[(oldX, oldY) := moved[(oldX, oldY)].(Element := E_EMPTY)]))
  }

  predicate PushableAlong(element: Byte, dx: int, dy: int) {
    (element == E_SLIDER_NS && dx == 0) || (element == E_SLIDER_EW && dy == 0) || Pushable(element)
  }

  predicate Crushable(element: Byte) {
    !Walkable(element) && Destructible(element) && element != E_PLAYER
  }

  ghost function Push(b: BoardState, x: int, y: int, dx: int, dy: int): (r: Outcome)
    requires Valid(b) && UnitStep(dx, dy)
    ensures ValidOutcome(r)
    decreases Room(x, y, dx, dy), 2
  {
    if !InGrid(x, y) then Panic
    else if !PushableAlong(Element(b, x, y), dx, dy) then Done(b)
    else if !InGrid(x + dx, y + dy) then Panic
    else
      var cleared :=
        if Element(b, x + dx, y + dy) == E_TRANSPORTER then Transport(b, x, y, dx, dy)
        else if Element(b, x + dx, y + dy) != E_EMPTY then Push(b, x + dx, y + dy, dx, dy)
        else Done(b);
      if cleared.Panic? then Panic else Follow(cleared.board, x, y, dx, dy)
  }

  /** The end of a push: crush what is left ahead, and step onto it if that opened it. */
  ghost function Follow(b: BoardState, x: int, y: int, dx: int, dy: int): (r: Outcome)
    requires Valid(b) && InGrid(x, y) && InGrid(x + dx, y + dy)
    ensures ValidOutcome(r)
  {
    var crushed := if Crushable(Element(b, x + dx, y + dy)) then DamageTile(b, x + dx, y + dy) else b;
    if Walkable(Element(crushed, x + dx, y + dy)) then ElementMove(crushed, x, y, x + dx, y + dy) else Done(crushed)
  }

  /** ElementTransporterMove. It keeps the stat table's slot across the search, and
      the search may remove stats: afterwards the slot is read again. */
  ghost function Transport(b: BoardState, x: int, y: int, dx: int, dy: int): (r: Outcome)
    requires Valid(b) && UnitStep(dx, dy) && InGrid(x, y)
    ensures ValidOutcome(r)
    decreases Room(x, y, dx, dy), 1
  {
    var slot := StatAt(b, x + dx, y + dy);
    if slot < 0 then Panic
    else if b.stats[slot].StepX != dx || b.stats[slot].StepY != dy then Done(b)
    else
      match Search(b, x + dx, y + dy, dx, dy, true)
      case SearchPanic => Panic
      case Missed(c) => Done(c)
      case Found(c, newX, newY) => ElementMove(c, c.stats[slot].X - dx, c.stats[slot].Y - dy, newX, newY)
  }

  ghost predicate SearchOk(s: SearchResult) {
    match s
    case Found(c, x, y) => Valid(c) && InGrid(x, y) && Walkable(Element(c, x, y))
    case Missed(c) => Valid(c)
    case SearchPanic => true
  }

  ghost function Search(b: BoardState, ix: int, iy: int, dx: int, dy: int, validDest: bool): (r: SearchResult)
    requires Valid(b) && UnitStep(dx, dy) && InGrid(ix, iy)
    ensures SearchOk(r)
    decreases Room(ix, iy, dx, dy), 0
  {
    var x, y := ix + dx, iy + dy;
    if !InGrid(x, y) then SearchPanic
    else if Element(b, x, y) == E_BOARD_EDGE then Missed(b)
    else
      var tried := if validDest && !Walkable(Element(b, x, y)) then Push(b, x, y, dx, dy) else Done(b);
      if tried.Panic? then SearchPanic
      else
        var c := tried.board;
        if validDest && Walkable(Element(c, x, y)) then Found(c, x, y)
        else if Element(c, x, y) != E_TRANSPORTER then Search(c, x, y, dx, dy, false)
        else
          var id := StatAt(c, x, y);
          if id < 0 then SearchPanic
          else Search(c, x, y, dx, dy, c.stats[id].StepX == -dx && c.stats[id].StepY == -dy)
  }

  // ---- A push that goes nowhere ------------------------------------------

  /** A tile that is not walkable and that a push with a zero step takes hold of. */
  predicate Loose(element: Byte) {
    !Walkable(element) && PushableAlong(element, 0, 0)
  }

  /** ElementPushablePush with a zero step returns within so many nested calls. The
      square ahead is the square itself, so nothing changes between the calls. */
  ghost predicate StillPushReturns(b: BoardState, x: int, y: int, depth: nat)
    requires (x, y) in b.tiles
  {
    if !PushableAlong(Element(b, x, y), 0, 0) || Element(b, x, y) == E_TRANSPORTER || Element(b, x, y) == E_EMPTY then
      true
    else depth > 0 && StillPushReturns(b, x, y, depth - 1)
  }

  /** GO and TRY push a square that is not walkable; with a zero step that returns
      at once, or, when the square is loose, never. */
  lemma {:induction false} LooseNeverReturns(b: BoardState, x: int, y: int, depth: nat)
    requires (x, y) in b.tiles && !Walkable(Element(b, x, y))
    ensures StillPushReturns(b, x, y, depth) <==> !Loose(Element(b, x, y))
  {
    if depth > 0 {
      LooseNeverReturns(b, x, y, depth - 1);
    }
  }

  // ---- One unfolding at a time -------------------------------------------

  ghost function Cleared(b: BoardState, x: int, y: int, dx: int, dy: int): (r: Outcome)
    requires Valid(b) && UnitStep(dx, dy) && InGrid(x, y) && InGrid(x + dx, y + dy)
    ensures ValidOutcome(r)
  {
    if Element(b, x + dx, y + dy) == E_TRANSPORTER then Transport(b, x, y, dx, dy)
    else if Element(b, x + dx, y + dy) != E_EMPTY then Push(b, x + dx, y + dy, dx, dy)
    else Done(b)
  }

  lemma PushUnfolds(b: BoardState, x: int, y: int, dx: int, dy: int)
    requires Valid(b) && UnitStep(dx, dy) && Push(b, x, y, dx, dy).Done?
    ensures InGrid(x, y)
    ensures !PushableAlong(Element(b, x, y), dx, dy) ==> Push(b, x, y, dx, dy) == Done(b)
    ensures PushableAlong(Element(b, x, y), dx, dy) ==>
      InGrid(x + dx, y + dy) && Cleared(b, x, y, dx, dy).Done?
      && Push(b, x, y, dx, dy) == Follow(Cleared(b, x, y, dx, dy).board, x, y, dx, dy)
  {
    hide Follow, Transport, Valid, Pushable;
  }

  lemma TransportUnfolds(b: BoardState, x: int, y: int, dx: int, dy: int)
    requires Valid(b) && UnitStep(dx, dy) && InGrid(x, y) && Transport(b, x, y, dx, dy).Done?
    ensures var slot := StatAt(b, x + dx, y + dy);
      && 0 <= slot < |b.stats| && InGrid(x + dx, y + dy)
      && (if b.stats[slot].StepX != dx || b.stats[slot].StepY != dy then Transport(b, x, y, dx, dy) == Done(b)
          else var s := Search(b, x + dx, y + dy, dx, dy, true);
            && !s.SearchPanic?
            && Transport(b, x, y, dx, dy) ==
               if s.Missed? then Done(s.board)
               else ElementMove(s.board, s.board.stats[slot].X - dx, s.board.stats[slot].Y - dy, s.x, s.y))
  {
    hide Search, ElementMove;
  }

  /** What the search has tried at the next square, and how it goes on from there. */
  ghost function Tried(b: BoardState, x: int, y: int, dx: int, dy: int, validDest: bool): (r: Outcome)
    requires Valid(b) && UnitStep(dx, dy) && InGrid(x, y)
    ensures ValidOutcome(r)
  {
    if validDest && !Walkable(Element(b, x, y)) then Push(b, x, y, dx, dy) else Done(b)
  }

  /** Whether (x, y) holds a transporter that comes the other way. */
  ghost predicate Opposite(b: BoardState, x: int, y: int, dx: int, dy: int)
    requires Valid(b) && InGrid(x, y)
  {
    Element(b, x, y) == E_TRANSPORTER &&
    var id := StatAt(b, x, y);
    id >= 0 && b.stats[id].StepX == -dx && b.stats[id].StepY == -dy
  }

  lemma SearchUnfolds(b: BoardState, ix: int, iy: int, dx: int, dy: int, validDest: bool)
    requires Valid(b) && UnitStep(dx, dy) && InGrid(ix, iy) && !Search(b, ix, iy, dx, dy, validDest).SearchPanic?
    ensures var x, y, s := ix + dx, iy + dy, Search(b, ix, iy, dx, dy, validDest);
      && InGrid(x, y) && Room(x, y, dx, dy) < Room(ix, iy, dx, dy)
      && (Element(b, x, y) == E_BOARD_EDGE ==> s == Missed(b))
      && (Element(b, x, y) != E_BOARD_EDGE ==>
        var t := Tried(b, x, y, dx, dy, validDest);
        && t.Done?
        && (validDest && Walkable(Element(t.board, x, y)) ==> s == Found(t.board, x, y))
        && (!(validDest && Walkable(Element(t.board, x, y))) ==>
          && (Element(t.board, x, y) == E_TRANSPORTER ==> StatAt(t.board, x, y) >= 0)
          && s == Search(t.board, x, y, dx, dy, Opposite(t.board, x, y, dx, dy))))
  {
  }

  /** The other direction: as long as nothing panics, a search goes on like this. */
  lemma SearchGoesOn(b: BoardState, ix: int, iy: int, dx: int, dy: int, validDest: bool)
    requires Valid(b) && UnitStep(dx, dy) && InGrid(ix, iy) && InGrid(ix + dx, iy + dy)
    ensures var x, y := ix + dx, iy + dy; var s := Search(b, ix, iy, dx, dy, validDest);
      && (Element(b, x, y) == E_BOARD_EDGE ==> s == Missed(b))
      && (Element(b, x, y) != E_BOARD_EDGE ==>
        var t := Tried(b, x, y, dx, dy, validDest);
        t.Done? && (Element(t.board, x, y) == E_TRANSPORTER ==> StatAt(t.board, x, y) >= 0) ==>
          s == if validDest && Walkable(Element(t.board, x, y)) then Found(t.board, x, y)
               else Search(t.board, x, y, dx, dy, Opposite(t.board, x, y, dx, dy)))
  {
    hide Push;
  }
}
