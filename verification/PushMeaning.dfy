/** What a push does, without saying how: the furthest square that gives way is
    opened, and everything up to it moves on by one square, stats with what they
    carry and the ground they stood on left behind. */
module PushMeaning {
  import opened GameVars
  import opened BoardSpec
  import opened PushSpec
  import opened PushSafety
  import opened StatTable

  // ---- The squares ahead -------------------------------------------------

  function Ahead(p: int, d: int, k: int): int {
    if d == 1 then p + k else if d == -1 then p - k else p
  }

  /** The square k steps from (x, y). */
  function Square(x: int, y: int, dx: int, dy: int, k: int): Coord {
    (Ahead(x, dx, k), Ahead(y, dy, k))
  }

  /** How many steps ahead of (x, y) the square (px, py) lies, -1 when it does not. */
  function Dist(x: int, y: int, dx: int, dy: int, px: int, py: int): int {
    var d := if dx == 1 then px - x else if dx == -1 then x - px else if dy == 1 then py - y else y - py;
    if d >= 0 && (if dx == 0 then px == x else py == y) then d else -1
  }

  lemma SquareAhead(x: int, y: int, dx: int, dy: int, k: int)
    requires UnitStep(dx, dy)
    ensures Square(x + dx, y + dy, dx, dy, k) == Square(x, y, dx, dy, k + 1)
    ensures Square(x, y, dx, dy, 0) == (x, y) && Square(x, y, dx, dy, 1) == (x + dx, y + dy)
  {
  }

  /** The element k squares ahead of (x, y). */
  ghost function Cell(b: BoardState, x: int, y: int, dx: int, dy: int, k: int): Byte
    requires Valid(b)
  {
    var px, py := Ahead(x, dx, k), Ahead(y, dy, k);
    if InGrid(px, py) then Element(b, px, py) else E_BOARD_EDGE
  }

  /** Squares 0..m-1 hold things that can be pushed, so a push gets as far as square m. */
  ghost predicate Reached(b: BoardState, x: int, y: int, dx: int, dy: int, m: nat)
    requires Valid(b)
  {
    forall k :: 0 <= k < m ==> Cell(b, x, y, dx, dy, k) != E_EMPTY && PushableAlong(Cell(b, x, y, dx, dy, k), dx, dy)
  }

  predicate GivesWay(element: Byte) {
    Walkable(element) || Crushable(element)
  }

  /** k is the furthest square reached that gives way, 0 when there is none. */
  ghost predicate Furthest(b: BoardState, x: int, y: int, dx: int, dy: int, k: nat)
    requires Valid(b)
  {
    && (k > 0 ==> Reached(b, x, y, dx, dy, k) && GivesWay(Cell(b, x, y, dx, dy, k)))
    && forall m :: m > k && m >= 1 && Reached(b, x, y, dx, dy, m) ==> !GivesWay(Cell(b, x, y, dx, dy, m))
  }

  lemma NextReached(b: BoardState, x: int, y: int, dx: int, dy: int, m: nat)
    requires Valid(b) && UnitStep(dx, dy)
    requires Cell(b, x, y, dx, dy, 0) != E_EMPTY && PushableAlong(Cell(b, x, y, dx, dy, 0), dx, dy)
    ensures Reached(b, x, y, dx, dy, m + 1) <==> Reached(b, x + dx, y + dy, dx, dy, m)
  {
    hide Valid;
    if Reached(b, x + dx, y + dy, dx, dy, m) {
      forall k | 0 <= k < m + 1
        ensures Cell(b, x, y, dx, dy, k) != E_EMPTY && PushableAlong(Cell(b, x, y, dx, dy, k), dx, dy)
      {
        if k > 0 {
          NextCellAhead(b, x, y, dx, dy, k - 1);
        }
      }
    }
    if Reached(b, x, y, dx, dy, m + 1) {
      var nx, ny := x + dx, y + dy;
      forall k | 0 <= k < m
        ensures Cell(b, nx, ny, dx, dy, k) != E_EMPTY && PushableAlong(Cell(b, nx, ny, dx, dy, k), dx, dy)
      {
        NextCellAhead(b, x, y, dx, dy, k);
      }
    }
  }

  lemma NextCellAhead(b: BoardState, x: int, y: int, dx: int, dy: int, k: int)
    requires Valid(b) && UnitStep(dx, dy)
    ensures Cell(b, x + dx, y + dy, dx, dy, k) == Cell(b, x, y, dx, dy, k + 1)
  {
    hide Valid;
    assert Ahead(x + dx, dx, k) == Ahead(x, dx, k + 1) && Ahead(y + dy, dy, k) == Ahead(y, dy, k + 1);
  }

  /** The furthest square seen from the next square is the furthest seen from here, one further on. */
  lemma FurthestFromHere(b: BoardState, x: int, y: int, dx: int, dy: int, k: nat)
    requires Valid(b) && UnitStep(dx, dy) && Furthest(b, x + dx, y + dy, dx, dy, k)
    requires Cell(b, x, y, dx, dy, 0) != E_EMPTY && PushableAlong(Cell(b, x, y, dx, dy, 0), dx, dy)
    ensures Furthest(b, x, y, dx, dy, if k > 0 then k + 1 else if GivesWay(Cell(b, x, y, dx, dy, 1)) then 1 else 0)
  {
    hide Valid, Cell;
    var r := if k > 0 then k + 1 else if GivesWay(Cell(b, x, y, dx, dy, 1)) then 1 else 0;
    if k > 0 {
      NextReached(b, x, y, dx, dy, k);
      NextCellAhead(b, x, y, dx, dy, k);
    }
    NextReached(b, x, y, dx, dy, 0);
    forall m | m > r && m >= 1 && Reached(b, x, y, dx, dy, m)
      ensures !GivesWay(Cell(b, x, y, dx, dy, m))
    {
      NextReached(b, x, y, dx, dy, m - 1);
      NextCellAhead(b, x, y, dx, dy, m - 1);
    }
  }

  lemma EmptyAheadIsFurthest(b: BoardState, x: int, y: int, dx: int, dy: int)
    requires Valid(b) && UnitStep(dx, dy) && Cell(b, x, y, dx, dy, 1) == E_EMPTY
    requires Cell(b, x, y, dx, dy, 0) != E_EMPTY && PushableAlong(Cell(b, x, y, dx, dy, 0), dx, dy)
    ensures Furthest(b, x, y, dx, dy, 1)
  {
    hide Valid, Cell;
  }

  // ---- What moves --------------------------------------------------------

  predicate StandsOn(b: BoardState, i: int, px: int, py: int)
    requires 0 <= i < |b.stats|
  {
    b.stats[i].X == px && b.stats[i].Y == py
  }

  ghost predicate OneOn(b: BoardState, px: int, py: int)
    requires Valid(b)
  {
    forall i, j :: 0 <= i <= b.count && 0 <= j <= b.count && StandsOn(b, i, px, py) && StandsOn(b, j, px, py) ==> i == j
  }

  /** What a square shows once the thing on it is gone. */
  ghost function Ground(b: BoardState, px: int, py: int): TTile
    requires Valid(b) && InGrid(px, py)
  {
    var s := StatAt(b, px, py);
    if s >= 0 then b.stats[s].Under else b.tiles[(px, py)].(Element := E_EMPTY)
  }

  /** What a square with this floor shows once the thing on (px, py) has come to it. */
  ghost function Brought(b: BoardState, px: int, py: int, floor: TTile): TTile
    requires Valid(b) && InGrid(px, py)
  {
    if StatAt(b, px, py) >= 0 then ArrivedTile(b.tiles[(px, py)], floor) else b.tiles[(px, py)]
  }

  /** What the thing that comes to the square j steps ahead steps onto. */
  ghost function Floor(b: BoardState, px: int, py: int, j: int, k: int): TTile
    requires Valid(b) && InGrid(px, py)
  {
    if j == k then b.tiles[(px, py)] else Ground(b, px, py)
  }

  ghost function ShiftedTile(b: BoardState, x: int, y: int, dx: int, dy: int, k: nat, px: int, py: int): TTile
    requires Valid(b) && InGrid(px, py)
  {
    var j := Dist(x, y, dx, dy, px, py);
    if j == 0 < k then Ground(b, px, py)
    else if 1 <= j <= k && InGrid(px - dx, py - dy) then Brought(b, px - dx, py - dy, Floor(b, px, py, j, k))
    else b.tiles[(px, py)]
  }

  /** A live stat less than k steps ahead is one square on, over that square's floor;
      every other slot is as it was. */
  ghost predicate ShiftedStat(b: BoardState, c: BoardState, x: int, y: int, dx: int, dy: int, k: nat, i: int)
    requires Valid(b) && 0 <= i < |b.stats| && |c.stats| == |b.stats|
  {
    var s, t := b.stats[i], c.stats[i];
    var j := Dist(x, y, dx, dy, s.X, s.Y);
    if i <= b.count && 0 <= j < k then
      && t.X == s.X + dx && t.Y == s.Y + dy && InGrid(t.X, t.Y)
      && t == s.(X := t.X, Y := t.Y, Under := Floor(b, t.X, t.Y, j + 1, k))
    else t == s
  }

  /** Whatever stood less than k steps ahead of (x, y) has moved on by one. */
  ghost predicate ShiftedBy(b: BoardState, c: BoardState, x: int, y: int, dx: int, dy: int, k: nat) {
    && Valid(b) && Valid(c) && c == b.(tiles := c.tiles, stats := c.stats)
    && (forall px, py :: InGrid(px, py) ==> c.tiles[(px, py)] == ShiftedTile(b, x, y, dx, dy, k, px, py))
    && (forall i :: 0 <= i < |b.stats| ==> ShiftedStat(b, c, x, y, dx, dy, k, i))
  }

  /** The board with the thing on the k-th square crushed, if that is how it gives way. */
  ghost function Opened(b: BoardState, x: int, y: int, dx: int, dy: int, k: nat): (r: BoardState)
    requires Valid(b)
    ensures Valid(r)
  {
    var p := Square(x, y, dx, dy, k);
    if k > 0 && InGrid(p.0, p.1) && Crushable(Element(b, p.0, p.1)) then DamageTile(b, p.0, p.1) else b
  }

  /** What lies m steps ahead can be pushed or crushed as if it were alone: a square
      of the array, no transporter, one stat at most, over ground one can walk on. */
  ghost predicate Yielding(b: BoardState, x: int, y: int, dx: int, dy: int, m: nat)
    requires Valid(b)
  {
    var p := Square(x, y, dx, dy, m);
    && InGrid(p.0, p.1) && (m > 0 ==> Element(b, p.0, p.1) != E_TRANSPORTER) && OneOn(b, p.0, p.1)
    && (Walkable(Element(b, p.0, p.1)) || Walkable(Ground(b, p.0, p.1).Element)
        || !(PushableAlong(Element(b, p.0, p.1), dx, dy) || Crushable(Element(b, p.0, p.1))))
  }

  /** So it is with every square the push reaches; what lies elsewhere does not matter. */
  ghost predicate Clear(b: BoardState, x: int, y: int, dx: int, dy: int)
    requires Valid(b)
  {
    forall m: nat :: Reached(b, x, y, dx, dy, m) ==> Yielding(b, x, y, dx, dy, m)
  }

  lemma ClearFromNext(b: BoardState, x: int, y: int, dx: int, dy: int)
    requires Valid(b) && UnitStep(dx, dy) && Clear(b, x, y, dx, dy)
    requires Cell(b, x, y, dx, dy, 0) != E_EMPTY && PushableAlong(Cell(b, x, y, dx, dy, 0), dx, dy)
    ensures Clear(b, x + dx, y + dy, dx, dy)
  {
    hide Valid, Cell, Reached, Square, PushableAlong, Crushable, Walkable, Ground, OneOn;
    var nx, ny := x + dx, y + dy;
    forall m: nat | Reached(b, nx, ny, dx, dy, m)
      ensures Yielding(b, nx, ny, dx, dy, m)
    {
      NextReached(b, x, y, dx, dy, m);
      SquareAhead(x, y, dx, dy, m);
      assert Yielding(b, x, y, dx, dy, m + 1);
    }
  }

  // ---- One step up -------------------------------------------------------

  lemma WhoStandsThere(b: BoardState, px: int, py: int)
    requires Valid(b)
    ensures var s := StatAt(b, px, py);
      if s >= 0 then s <= b.count && StandsOn(b, s, px, py) else s == -1 && Unoccupied(b, px, py)
    ensures OneOn(b, px, py) ==> forall i :: 0 <= i <= b.count && StandsOn(b, i, px, py) ==> i == StatAt(b, px, py)
  {
    assert StatAt(b, px, py) >= 0 ==> StandsOn(b, StatAt(b, px, py), px, py);
  }

  lemma StatMoveTiles(b: BoardState, x: int, y: int, dx: int, dy: int, px: int, py: int)
    requires Valid(b) && UnitStep(dx, dy) && InGrid(x, y) && InGrid(x + dx, y + dy) && InGrid(px, py)
    requires StatAt(b, x, y) >= 0
    ensures MoveStat(b, StatAt(b, x, y), x + dx, y + dy).tiles[(px, py)] == ShiftedTile(b, x, y, dx, dy, 1, px, py)
  {
    WhoStandsThere(b, x, y);
    Near(x, y, dx, dy, px, py);
    hide StatAt, ArrivedTile, OneOn, Dist, Valid;
  }

  lemma StatMoveStats(b: BoardState, x: int, y: int, dx: int, dy: int, i: int)
    requires Valid(b) && UnitStep(dx, dy) && InGrid(x, y) && InGrid(x + dx, y + dy) && OneOn(b, x, y)
    requires StatAt(b, x, y) >= 0 && 0 <= i < STAT_SLOTS
    ensures ShiftedStat(b, MoveStat(b, StatAt(b, x, y), x + dx, y + dy), x, y, dx, dy, 1, i)
  {
    WhoStandsThere(b, x, y);
    Near(x, y, dx, dy, b.stats[i].X, b.stats[i].Y);
    assert i <= b.count && StandsOn(b, i, x, y) ==> i == StatAt(b, x, y);
    hide StatAt, ArrivedTile, OneOn, Dist, Ground, Brought;
  }

  lemma StatMoveShifts(b: BoardState, x: int, y: int, dx: int, dy: int)
    requires Valid(b) && UnitStep(dx, dy) && InGrid(x, y) && InGrid(x + dx, y + dy) && OneOn(b, x, y)
    requires StatAt(b, x, y) >= 0
    ensures ShiftedBy(b, MoveStat(b, StatAt(b, x, y), x + dx, y + dy), x, y, dx, dy, 1)
  {
    WhoStandsThere(b, x, y);
    hide StatAt, ArrivedTile, OneOn, Dist, ShiftedTile, ShiftedStat;
    var c := MoveStat(b, StatAt(b, x, y), x + dx, y + dy);
    forall px, py | InGrid(px, py)
      ensures c.tiles[(px, py)] == ShiftedTile(b, x, y, dx, dy, 1, px, py)
    {
      StatMoveTiles(b, x, y, dx, dy, px, py);
    }
    forall i | 0 <= i < |b.stats|
      ensures ShiftedStat(b, c, x, y, dx, dy, 1, i)
    {
      StatMoveStats(b, x, y, dx, dy, i);
    }
    hide MoveStat;
  }

  lemma TileMoveShifts(b: BoardState, x: int, y: int, dx: int, dy: int)
    requires Valid(b) && UnitStep(dx, dy) && InGrid(x, y) && InGrid(x + dx, y + dy) && StatAt(b, x, y) == -1
    ensures ShiftedBy(b, ElementMove(b, x, y, x + dx, y + dy).board, x, y, dx, dy, 1)
  {
    WhoStandsThere(b, x, y);
    var c := ElementMove(b, x, y, x + dx, y + dy).board;
    hide StatAt, ArrivedTile, OneOn, Dist;
    forall px, py | InGrid(px, py)
      ensures c.tiles[(px, py)] == ShiftedTile(b, x, y, dx, dy, 1, px, py)
    {
      Near(x, y, dx, dy, px, py);
    }
    hide Ground, Brought;
    forall i | 0 <= i < |b.stats|
      ensures ShiftedStat(b, c, x, y, dx, dy, 1, i)
    {
      Near(x, y, dx, dy, b.stats[i].X, b.stats[i].Y);
    }
  }

  lemma MoveShifts(b: BoardState, x: int, y: int, dx: int, dy: int)
    requires Valid(b) && UnitStep(dx, dy) && InGrid(x, y) && InGrid(x + dx, y + dy) && OneOn(b, x, y)
    ensures var r := ElementMove(b, x, y, x + dx, y + dy);
      r.Done? && ShiftedBy(b, r.board, x, y, dx, dy, 1)
  {
    WhoStandsThere(b, x, y);
    if StatAt(b, x, y) >= 0 {
      StatMoveShifts(b, x, y, dx, dy);
    } else {
      TileMoveShifts(b, x, y, dx, dy);
    }
    hide ShiftedBy, MoveStat, OneOn, StatAt;
  }

  lemma Near(x: int, y: int, dx: int, dy: int, px: int, py: int)
    requires UnitStep(dx, dy)
    ensures var j := Dist(x, y, dx, dy, px, py);
      && j >= -1 && (j == 0 <==> (px, py) == (x, y)) && (j == 1 <==> (px, py) == (x + dx, y + dy))
      && (j >= 0 ==> Dist(x, y, dx, dy, px + dx, py + dy) == j + 1)
  {
  }

  lemma SameThere(b: BoardState, c: BoardState, x: int, y: int, dx: int, dy: int, k: nat)
    requires UnitStep(dx, dy) && InGrid(x, y) && ShiftedBy(b, c, x + dx, y + dy, dx, dy, k)
    ensures StatAt(c, x, y) == StatAt(b, x, y) && c.tiles[(x, y)] == b.tiles[(x, y)]
    ensures forall i :: 0 <= i <= b.count ==> (StandsOn(c, i, x, y) <==> StandsOn(b, i, x, y))
  {
    hide Floor, Ground, Brought;
    forall i | 0 <= i <= b.count
      ensures StandsOn(c, i, x, y) <==> StandsOn(b, i, x, y)
    {
      assert ShiftedStat(b, c, x + dx, y + dy, dx, dy, k, i);
    }
    SameFirst(b, c, x, y);
  }

  lemma SameFirst(b: BoardState, c: BoardState, x: int, y: int)
    requires Valid(b) && Valid(c) && b.count == c.count
    requires forall i :: 0 <= i <= b.count ==> (StandsOn(c, i, x, y) <==> StandsOn(b, i, x, y))
    ensures StatAt(c, x, y) == StatAt(b, x, y)
  {
    WhoStandsThere(b, x, y);
    WhoStandsThere(c, x, y);
    var s, t := StatAt(b, x, y), StatAt(c, x, y);
    assert s >= 0 ==> StandsOn(c, s, x, y);
    assert t >= 0 ==> StandsOn(b, t, x, y);
    if s >= 0 && t >= 0 {
      FirstIsFirst(b, x, y, t);
      FirstIsFirst(c, x, y, s);
    }
  }

  lemma FirstIsFirst(b: BoardState, x: int, y: int, i: int)
    requires Valid(b) && 0 <= i <= b.count && StandsOn(b, i, x, y)
    ensures 0 <= StatAt(b, x, y) <= i
  {
  }

  lemma FromNext(x: int, y: int, dx: int, dy: int, px: int, py: int)
    requires UnitStep(dx, dy)
    ensures var j := Dist(x, y, dx, dy, px, py);
      && j >= -1 && Dist(x + dx, y + dy, dx, dy, px, py) == if j >= 1 then j - 1 else -1
  {
  }

  lemma GroundThere(b: BoardState, c: BoardState, x: int, y: int, dx: int, dy: int, k: nat)
    requires UnitStep(dx, dy) && InGrid(x, y) && ShiftedBy(b, c, x + dx, y + dy, dx, dy, k)
    ensures Ground(c, x, y) == Ground(b, x, y)
    ensures forall f :: Brought(c, x, y, f) == Brought(b, x, y, f)
  {
    SameThere(b, c, x, y, dx, dy, k);
    WhoStandsThere(b, x, y);
    var s := StatAt(b, x, y);
    FromNext(x, y, dx, dy, x, y);
    Near(x, y, dx, dy, x, y);
    assert s >= 0 ==> ShiftedStat(b, c, x + dx, y + dy, dx, dy, k, s);
    hide StatAt, Floor, ArrivedTile;
  }

  lemma TilesCompose(b: BoardState, c: BoardState, d: BoardState, x: int, y: int, dx: int, dy: int, m: nat, px: int,
          py: int)
    requires UnitStep(dx, dy) && InGrid(x, y) && InGrid(x + dx, y + dy) && m >= 1 && InGrid(px, py)
    requires ShiftedBy(b, c, x + dx, y + dy, dx, dy, m) && ShiftedBy(c, d, x, y, dx, dy, 1)
    ensures d.tiles[(px, py)] == ShiftedTile(b, x, y, dx, dy, m + 1, px, py)
  {
    hide Dist, Ground, Brought, ShiftedStat;
    GroundThere(b, c, x, y, dx, dy, m);
    Near(x, y, dx, dy, px, py);
    FromNext(x, y, dx, dy, px, py);
    assert d.tiles[(px, py)] == ShiftedTile(c, x, y, dx, dy, 1, px, py);
    assert c.tiles[(px, py)] == ShiftedTile(b, x + dx, y + dy, dx, dy, m, px, py);
  }

  lemma NextLaidBare(b: BoardState, c: BoardState, x: int, y: int, dx: int, dy: int, m: nat)
    requires InGrid(x, y) && m >= 1 && UnitStep(dx, dy) && ShiftedBy(b, c, x, y, dx, dy, m)
    ensures c.tiles[(x, y)] == Ground(b, x, y)
  {
    hide Ground, Brought, Floor;
    Near(x, y, dx, dy, x, y);
    assert c.tiles[(x, y)] == ShiftedTile(b, x, y, dx, dy, m, x, y);
  }

  lemma StatComposes(b: BoardState, c: BoardState, d: BoardState, x: int, y: int, dx: int, dy: int, m: nat, i: int)
    requires UnitStep(dx, dy) && m >= 1 && Valid(b) && Valid(c) && Valid(d) && InGrid(x + dx, y + dy)
    requires 0 <= i < STAT_SLOTS && b.count == c.count && c.tiles[(x + dx, y + dy)] == Ground(b, x + dx, y + dy)
    requires ShiftedStat(b, c, x + dx, y + dy, dx, dy, m, i) && ShiftedStat(c, d, x, y, dx, dy, 1, i)
    ensures ShiftedStat(b, d, x, y, dx, dy, m + 1, i)
  {
    var s, t := b.stats[i], c.stats[i];
    Near(x, y, dx, dy, s.X, s.Y);
    Near(x, y, dx, dy, t.X, t.Y);
    FromNext(x, y, dx, dy, s.X, s.Y);
    var j := Dist(x, y, dx, dy, s.X, s.Y);
    hide Dist, Ground, Valid, UnitStep;
    if i <= b.count && 0 <= j <= m {
      if j == 0 {
        assert t == s;
      } else {
        assert Dist(x, y, dx, dy, t.X, t.Y) == j + 1;
      }
    } else {
      assert t == s;
    }
  }

  lemma StatOfShift(b: BoardState, c: BoardState, x: int, y: int, dx: int, dy: int, k: nat, i: int)
    requires ShiftedBy(b, c, x, y, dx, dy, k) && 0 <= i < STAT_SLOTS
    ensures Valid(b) && Valid(c) && b.count == c.count
    ensures ShiftedStat(b, c, x, y, dx, dy, k, i)
  {
    hide ShiftedStat, ShiftedTile;
  }

  lemma StatsCompose(b: BoardState, c: BoardState, d: BoardState, x: int, y: int, dx: int, dy: int, m: nat, i: int)
    requires UnitStep(dx, dy) && InGrid(x, y) && InGrid(x + dx, y + dy) && m >= 1 && 0 <= i < STAT_SLOTS
    requires ShiftedBy(b, c, x + dx, y + dy, dx, dy, m) && ShiftedBy(c, d, x, y, dx, dy, 1)
    ensures |b.stats| == |d.stats| == STAT_SLOTS && Valid(b) && ShiftedStat(b, d, x, y, dx, dy, m + 1, i)
  {
    hide ShiftedBy, ShiftedStat, Ground;
    NextLaidBare(b, c, x + dx, y + dy, dx, dy, m);
    StatOfShift(b, c, x + dx, y + dy, dx, dy, m, i);
    StatOfShift(c, d, x, y, dx, dy, 1, i);
    StatComposes(b, c, d, x, y, dx, dy, m, i);
  }

  /** A shift of what lies ahead and one more step is a shift by one further. */
  lemma ShiftsCompose(b: BoardState, c: BoardState, d: BoardState, x: int, y: int, dx: int, dy: int, m: nat)
    requires UnitStep(dx, dy) && InGrid(x, y) && InGrid(x + dx, y + dy) && m >= 1
    requires ShiftedBy(b, c, x + dx, y + dy, dx, dy, m) && ShiftedBy(c, d, x, y, dx, dy, 1)
    ensures ShiftedBy(b, d, x, y, dx, dy, m + 1)
  {
    var k := m + 1;
    forall px, py | InGrid(px, py)
      ensures d.tiles[(px, py)] == ShiftedTile(b, x, y, dx, dy, k, px, py)
    {
      TilesCompose(b, c, d, x, y, dx, dy, m, px, py);
    }
    forall i | 0 <= i < |b.stats|
      ensures ShiftedStat(b, d, x, y, dx, dy, k, i)
    {
      StatsCompose(b, c, d, x, y, dx, dy, m, i);
    }
    hide ShiftedTile, ShiftedStat;
  }

  lemma ShiftOfNothing(b: BoardState, x: int, y: int, dx: int, dy: int)
    requires Valid(b)
    ensures ShiftedBy(b, b, x, y, dx, dy, 0)
  {
    hide Dist, Ground, Brought;
  }

  lemma SameTiles(b: BoardState, c: BoardState)
    requires Valid(b) && Valid(c) && forall px, py :: InGrid(px, py) ==> c.tiles[(px, py)] == b.tiles[(px, py)]
    ensures c.tiles == b.tiles
  {
    forall p
      ensures p in c.tiles <==> p in b.tiles
      ensures p in b.tiles ==> c.tiles[p] == b.tiles[p]
    {
      assert p == (p.0, p.1);
      assert InGrid(p.0, p.1) <==> p in b.tiles;
    }
  }

  lemma NothingShifted(b: BoardState, c: BoardState, x: int, y: int, dx: int, dy: int)
    requires ShiftedBy(b, c, x, y, dx, dy, 0)
    ensures c == b
  {
    hide Dist, Ground, Brought;
    forall i | 0 <= i < |b.stats|
      ensures c.stats[i] == b.stats[i]
    {
      StatOfShift(b, c, x, y, dx, dy, 0, i);
    }
    assert c.stats == b.stats;
    SameTiles(b, c);
  }

  // ---- Opening the furthest square ---------------------------------------

  lemma RemovalElsewhere(b: BoardState, c: BoardState, id: int, px: int, py: int)
    requires RemovedAs(b, c, id) && InGrid(px, py) && !StandsOn(b, id, px, py) && OneOn(b, px, py)
    ensures c.tiles[(px, py)] == b.tiles[(px, py)] && OneOn(c, px, py) && Ground(c, px, py) == Ground(b, px, py)
  {
    WhoStandsThere(b, px, py);
    var s := StatAt(b, px, py);
    forall k | 0 <= k <= c.count
      ensures StandsOn(c, k, px, py) <==> KeyBefore(k, id) == s >= 0
    {
      assert SameStat(c.stats[k], b.stats[KeyBefore(k, id)]);
      assert StandsOn(c, k, px, py) == StandsOn(b, KeyBefore(k, id), px, py);
    }
    WhoStandsThere(c, px, py);
    if s >= 0 {
      assert KeyBefore(Renamed(s, id), id) == s && StandsOn(c, Renamed(s, id), px, py);
      assert SameStat(c.stats[Renamed(s, id)], b.stats[s]);
    }
  }

  lemma DamageElsewhere(b: BoardState, qx: int, qy: int, px: int, py: int)
    requires Valid(b) && InGrid(qx, qy) && InGrid(px, py) && (qx, qy) != (px, py) && OneOn(b, px, py)
    ensures var c := DamageTile(b, qx, qy);
      c.tiles[(px, py)] == b.tiles[(px, py)] && OneOn(c, px, py) && Ground(c, px, py) == Ground(b, px, py)
  {
    hide RemoveStat;
    WhoStandsThere(b, qx, qy);
    var id := StatAt(b, qx, qy);
    if id >= 0 {
      RemoveStatAs(b, id);
      assert !StandsOn(b, id, px, py);
      RemovalElsewhere(b, RemoveStat(b, id), id, px, py);
    } else {
      var c := DamageTile(b, qx, qy);
      assert forall i :: 0 <= i <= b.count ==> StandsOn(c, i, px, py) == StandsOn(b, i, px, py);
    }
  }

  lemma DamageThere(b: BoardState, qx: int, qy: int)
    requires Valid(b) && InGrid(qx, qy)
    ensures DamageTile(b, qx, qy).tiles[(qx, qy)] == Ground(b, qx, qy)
  {
    hide RemoveStat;
    WhoStandsThere(b, qx, qy);
    var id := StatAt(b, qx, qy);
    if id >= 0 {
      RestOfRemoval(b, id);
      assert (b.stats[id].X as int, b.stats[id].Y as int) == (qx, qy);
    }
  }

  /** Opening the k-th square leaves the nearer ones alone. */
  lemma OpenedNear(b: BoardState, x: int, y: int, dx: int, dy: int, k: nat, j: nat)
    requires Valid(b) && UnitStep(dx, dy) && j < k
    requires var p := Square(x, y, dx, dy, j); InGrid(p.0, p.1) && OneOn(b, p.0, p.1)
    ensures var p, c := Square(x, y, dx, dy, j), Opened(b, x, y, dx, dy, k);
      && c.tiles[p] == b.tiles[p] && OneOn(c, p.0, p.1) && Ground(c, p.0, p.1) == Ground(b, p.0, p.1)
  {
    var p, q := Square(x, y, dx, dy, j), Square(x, y, dx, dy, k);
    hide DamageTile, Ground, OneOn;
    if InGrid(q.0, q.1) {
      DamageElsewhere(b, q.0, q.1, p.0, p.1);
    }
  }

  // ---- The whole push ----------------------------------------------------

  /** What lay ahead has made room; the thing on (x, y) follows. */
  lemma FollowAfterShift(b: BoardState, c: BoardState, x: int, y: int, dx: int, dy: int, m: nat)
    requires Valid(b) && UnitStep(dx, dy) && InGrid(x, y) && InGrid(x + dx, y + dy) && m >= 1
    requires OneOn(b, x, y) && OneOn(b, x + dx, y + dy) && Walkable(Ground(b, x + dx, y + dy).Element)
    requires ShiftedBy(Opened(b, x + dx, y + dy, dx, dy, m), c, x + dx, y + dy, dx, dy, m)
    ensures var r := Follow(c, x, y, dx, dy);
      r.Done? && ShiftedBy(Opened(b, x, y, dx, dy, m + 1), r.board, x, y, dx, dy, m + 1)
  {
    hide Ground, OneOn, ShiftedBy, ElementMove;
    SquareAhead(x, y, dx, dy, m);
    SquareAhead(x, y, dx, dy, 0);
    var o := Opened(b, x, y, dx, dy, m + 1);
    assert o == Opened(b, x + dx, y + dy, dx, dy, m);
    OpenedNear(b, x, y, dx, dy, m + 1, 0);
    OpenedNear(b, x, y, dx, dy, m + 1, 1);
    hide Opened, Square;
    NextLaidBare(o, c, x + dx, y + dy, dx, dy, m);
    OneOnStill(o, c, x, y, dx, dy, m);
    MoveShifts(c, x, y, dx, dy);
    ShiftsCompose(o, c, ElementMove(c, x, y, x + dx, y + dy).board, x, y, dx, dy, m);
  }

  lemma OneOnStill(b: BoardState, c: BoardState, x: int, y: int, dx: int, dy: int, k: nat)
    requires UnitStep(dx, dy) && InGrid(x, y) && ShiftedBy(b, c, x + dx, y + dy, dx, dy, k) && OneOn(b, x, y)
    ensures Valid(c) && OneOn(c, x, y)
  {
    SameThere(b, c, x, y, dx, dy, k);
  }

  /** Nothing ahead has moved; the thing on (x, y) crushes what is there, or not, and follows. */
  lemma FollowDirectly(b: BoardState, x: int, y: int, dx: int, dy: int)
    requires Valid(b) && UnitStep(dx, dy) && InGrid(x, y) && OneOn(b, x, y) && Yielding(b, x, y, dx, dy, 1)
    ensures InGrid(x + dx, y + dy)
    ensures var r := Follow(b, x, y, dx, dy);
      && r.Done?
      && if GivesWay(Element(b, x + dx, y + dy)) then ShiftedBy(Opened(b, x, y, dx, dy, 1), r.board, x, y, dx, dy, 1)
         else r.board == b
  {
    hide Ground, OneOn, ShiftedBy, ElementMove, DamageTile;
    SquareAhead(x, y, dx, dy, 0);
    var o := Opened(b, x, y, dx, dy, 1);
    OpenedNear(b, x, y, dx, dy, 1, 0);
    DamageThere(b, x + dx, y + dy);
    if GivesWay(Element(b, x + dx, y + dy)) {
      MoveShifts(o, x, y, dx, dy);
    }
  }

  lemma ClearHere(b: BoardState, x: int, y: int, dx: int, dy: int)
    requires Valid(b) && UnitStep(dx, dy) && Clear(b, x, y, dx, dy)
    ensures InGrid(x, y) && OneOn(b, x, y) && Cell(b, x, y, dx, dy, 0) == Element(b, x, y)
    ensures Cell(b, x, y, dx, dy, 0) != E_EMPTY && PushableAlong(Cell(b, x, y, dx, dy, 0), dx, dy) ==>
      && Yielding(b, x, y, dx, dy, 1) && InGrid(x + dx, y + dy)
      && Cell(b, x, y, dx, dy, 1) == Element(b, x + dx, y + dy) != E_TRANSPORTER && OneOn(b, x + dx, y + dy)
  {
    SquareAhead(x, y, dx, dy, 0);
    assert Reached(b, x, y, dx, dy, 0);
    assert Yielding(b, x, y, dx, dy, 0);
    hide Valid, OneOn, Ground;
    if Cell(b, x, y, dx, dy, 0) != E_EMPTY && PushableAlong(Cell(b, x, y, dx, dy, 0), dx, dy) {
      assert Reached(b, x, y, dx, dy, 1);
    }
  }

  lemma PlainPush(b: BoardState, x: int, y: int, dx: int, dy: int)
    requires Valid(b) && UnitStep(dx, dy) && InGrid(x, y) && InGrid(x + dx, y + dy)
    requires PushableAlong(Element(b, x, y), dx, dy) && Element(b, x + dx, y + dy) != E_TRANSPORTER
    ensures Element(b, x + dx, y + dy) == E_EMPTY ==> Push(b, x, y, dx, dy) == Follow(b, x, y, dx, dy)
    ensures var r := Push(b, x + dx, y + dy, dx, dy);
      Element(b, x + dx, y + dy) != E_EMPTY && r.Done? ==> Push(b, x, y, dx, dy) == Follow(r.board, x, y, dx, dy)
  {
    hide Follow, Transport, Valid;
  }

  lemma StuckPush(b: BoardState, x: int, y: int, dx: int, dy: int)
    requires Valid(b) && UnitStep(dx, dy) && InGrid(x, y) && !PushableAlong(Element(b, x, y), dx, dy)
    ensures Push(b, x, y, dx, dy) == Done(b)
  {
    hide Follow, Transport, Valid;
  }

  lemma StuckHere(b: BoardState, x: int, y: int, dx: int, dy: int)
    requires Valid(b) && UnitStep(dx, dy) && !PushableAlong(Cell(b, x, y, dx, dy, 0), dx, dy)
    ensures Furthest(b, x, y, dx, dy, 0)
  {
    hide Valid, Cell;
  }

  lemma NothingOpened(b: BoardState, x: int, y: int, dx: int, dy: int)
    requires Valid(b)
    ensures Opened(b, x, y, dx, dy, 0) == b
  {
  }

  /** When the next square makes room, the ground it leaves can be walked on. */
  lemma SecondYields(b: BoardState, x: int, y: int, dx: int, dy: int, k: nat)
    requires Valid(b) && UnitStep(dx, dy) && k >= 1 && InGrid(x + dx, y + dy)
    requires Yielding(b, x, y, dx, dy, 1) && Furthest(b, x + dx, y + dy, dx, dy, k)
    ensures Walkable(Ground(b, x + dx, y + dy).Element)
  {
    SquareAhead(x, y, dx, dy, 0);
    SquareAhead(x + dx, y + dy, dx, dy, 0);
    assert Cell(b, x + dx, y + dy, dx, dy, 0) == Element(b, x + dx, y + dy);
    hide Valid, Ground, OneOn;
  }

  ghost predicate PushedTo(b: BoardState, x: int, y: int, dx: int, dy: int, k: nat)
    requires Valid(b) && UnitStep(dx, dy)
  {
    var r := Push(b, x, y, dx, dy);
    Furthest(b, x, y, dx, dy, k) && r.Done? && ShiftedBy(Opened(b, x, y, dx, dy, k), r.board, x, y, dx, dy, k)
  }

  lemma PushStuck(b: BoardState, x: int, y: int, dx: int, dy: int)
    requires Valid(b) && UnitStep(dx, dy) && InGrid(x, y) && !PushableAlong(Element(b, x, y), dx, dy)
    ensures PushedTo(b, x, y, dx, dy, 0)
  {
    assert Cell(b, x, y, dx, dy, 0) == Element(b, x, y);
    hide Furthest, ShiftedBy, Valid, Opened;
    StuckHere(b, x, y, dx, dy);
    StuckPush(b, x, y, dx, dy);
    NothingOpened(b, x, y, dx, dy);
    ShiftOfNothing(b, x, y, dx, dy);
  }

  /** The push of what lies ahead has moved something, and this moves up behind it. */
  lemma PushBehind(b: BoardState, x: int, y: int, dx: int, dy: int, k: nat)
    requires Valid(b) && UnitStep(dx, dy) && Clear(b, x, y, dx, dy) && Cell(b, x, y, dx, dy, 0) != E_EMPTY && k > 0
    requires InGrid(x, y) && PushableAlong(Element(b, x, y), dx, dy)
    requires InGrid(x + dx, y + dy) && Element(b, x + dx, y + dy) != E_EMPTY && PushedTo(b, x + dx, y + dy, dx, dy, k)
    ensures PushedTo(b, x, y, dx, dy, k + 1)
  {
    ClearHere(b, x, y, dx, dy);
    hide Furthest, ShiftedBy, Valid, Opened, Clear, Reached, Cell, Push, Follow, OneOn, Yielding;
    PlainPush(b, x, y, dx, dy);
    SecondYields(b, x, y, dx, dy, k);
    FurthestFromHere(b, x, y, dx, dy, k);
    FollowAfterShift(b, Push(b, x + dx, y + dy, dx, dy).board, x, y, dx, dy, k);
  }

  /** Nothing lies ahead, or nothing that has moved: this moves if the next square gives way. */
  lemma PushIntoEmpty(b: BoardState, x: int, y: int, dx: int, dy: int)
    requires Valid(b) && UnitStep(dx, dy) && Clear(b, x, y, dx, dy) && Cell(b, x, y, dx, dy, 0) != E_EMPTY
    requires InGrid(x, y) && PushableAlong(Element(b, x, y), dx, dy)
    requires InGrid(x + dx, y + dy) && Element(b, x + dx, y + dy) == E_EMPTY
    ensures PushedTo(b, x, y, dx, dy, 1)
  {
    ClearHere(b, x, y, dx, dy);
    hide Furthest, ShiftedBy, Valid, Opened, Clear, Reached, Cell, Push, Follow, OneOn, Yielding;
    PlainPush(b, x, y, dx, dy);
    FollowDirectly(b, x, y, dx, dy);
    EmptyAheadIsFurthest(b, x, y, dx, dy);
  }

  /** Where the push of what lies ahead has changed nothing, only Follow acts. */
  lemma OnlyFollows(b: BoardState, x: int, y: int, dx: int, dy: int)
    requires Valid(b) && UnitStep(dx, dy) && InGrid(x, y) && PushableAlong(Element(b, x, y), dx, dy)
    requires InGrid(x + dx, y + dy) && Element(b, x + dx, y + dy) !in {E_EMPTY, E_TRANSPORTER}
    requires PushedTo(b, x + dx, y + dy, dx, dy, 0)
    ensures Push(b, x, y, dx, dy) == Follow(b, x, y, dx, dy) && Furthest(b, x + dx, y + dy, dx, dy, 0)
  {
    hide Furthest, ShiftedBy, Valid, Opened, Push, Follow, Pushable;
    NothingOpened(b, x + dx, y + dy, dx, dy);
    NothingShifted(b, Push(b, x + dx, y + dy, dx, dy).board, x + dx, y + dy, dx, dy);
    PlainPush(b, x, y, dx, dy);
  }

  lemma PushAlone(b: BoardState, x: int, y: int, dx: int, dy: int)
    requires Valid(b) && UnitStep(dx, dy) && Clear(b, x, y, dx, dy) && Cell(b, x, y, dx, dy, 0) != E_EMPTY
    requires InGrid(x, y) && PushableAlong(Element(b, x, y), dx, dy)
    requires InGrid(x + dx, y + dy) && Element(b, x + dx, y + dy) != E_EMPTY && PushedTo(b, x + dx, y + dy, dx, dy, 0)
    ensures PushedTo(b, x, y, dx, dy, if GivesWay(Element(b, x + dx, y + dy)) then 1 else 0)
  {
    ClearHere(b, x, y, dx, dy);
    OnlyFollows(b, x, y, dx, dy);
    hide Furthest, ShiftedBy, Valid, Opened, Clear, Reached, Cell, Push, Follow, OneOn, Yielding, GivesWay, Element;
    NothingOpened(b, x, y, dx, dy);
    ShiftOfNothing(b, x, y, dx, dy);
    FollowDirectly(b, x, y, dx, dy);
    FurthestFromHere(b, x, y, dx, dy, 0);
  }

  lemma {:induction false} PushesTo(b: BoardState, x: int, y: int, dx: int, dy: int) returns (k: nat)
    requires Valid(b) && UnitStep(dx, dy) && Clear(b, x, y, dx, dy) && Cell(b, x, y, dx, dy, 0) != E_EMPTY
    ensures PushedTo(b, x, y, dx, dy, k)
    decreases Room(x, y, dx, dy)
  {
    hide PushedTo, Clear, Cell, OneOn, Yielding, GivesWay, Pushable;
    ClearHere(b, x, y, dx, dy);
    k := 0;
    if !PushableAlong(Element(b, x, y), dx, dy) {
      PushStuck(b, x, y, dx, dy);
    } else {
      var nx, ny := x + dx, y + dy;
      if Element(b, nx, ny) != E_EMPTY {
        ClearFromNext(b, x, y, dx, dy);
        CellHere(b, nx, ny, dx, dy);
        k := PushesTo(b, nx, ny, dx, dy);
      }
      if k > 0 {
        PushBehind(b, x, y, dx, dy, k);
        k := k + 1;
      } else {
        if Element(b, nx, ny) == E_EMPTY {
          PushIntoEmpty(b, x, y, dx, dy);
          k := 1;
        } else {
          PushAlone(b, x, y, dx, dy);
          k := if GivesWay(Element(b, nx, ny)) then 1 else 0;
        }
      }
    }
  }

  /** What a push does: it opens the furthest square that gives way, and everything
      up to that square moves on by one. */
  lemma PushShifts(b: BoardState, x: int, y: int, dx: int, dy: int) returns (k: nat)
    requires Valid(b) && UnitStep(dx, dy) && Clear(b, x, y, dx, dy) && Cell(b, x, y, dx, dy, 0) != E_EMPTY
    ensures Furthest(b, x, y, dx, dy, k)
    ensures var r := Push(b, x, y, dx, dy);
      r.Done? && ShiftedBy(Opened(b, x, y, dx, dy, k), r.board, x, y, dx, dy, k)
  {
    hide Furthest, ShiftedBy, Valid, Opened, Clear, Reached, Cell, Push;
    k := PushesTo(b, x, y, dx, dy);
  }

  lemma CellHere(b: BoardState, x: int, y: int, dx: int, dy: int)
    requires Valid(b) && UnitStep(dx, dy) && InGrid(x, y)
    ensures Cell(b, x, y, dx, dy, 0) == Element(b, x, y)
  {
  }

  /** Something at the end of the reach that is crushed over ground one cannot walk on,
      as a bullet over water is. */
  ghost predicate CrushedOverSolid(b: BoardState, x: int, y: int, dx: int, dy: int, m: nat)
    requires Valid(b)
  {
    var p := Square(x, y, dx, dy, m);
    && InGrid(p.0, p.1) && m >= 1 && Reached(b, x, y, dx, dy, m)
    && Crushable(Element(b, p.0, p.1)) && !PushableAlong(Element(b, p.0, p.1), dx, dy)
    && var ground := Ground(b, p.0, p.1).Element;
      !PushableAlong(ground, dx, dy) && !GivesWay(ground) && ground != E_TRANSPORTER
  }

  lemma ElsewhereStays(b: BoardState, qx: int, qy: int, px: int, py: int)
    requires Valid(b) && InGrid(qx, qy) && InGrid(px, py) && (qx, qy) != (px, py)
    ensures Element(DamageTile(b, qx, qy), px, py) == Element(b, px, py)
  {
    hide RemoveStat;
    WhoStandsThere(b, qx, qy);
    if StatAt(b, qx, qy) >= 0 {
      RestOfRemoval(b, StatAt(b, qx, qy));
    }
  }

  lemma SolidFromNext(b: BoardState, x: int, y: int, dx: int, dy: int, m: nat)
    requires Valid(b) && UnitStep(dx, dy) && InGrid(x, y) && CrushedOverSolid(b, x, y, dx, dy, m) && m > 1
    ensures InGrid(x + dx, y + dy) && CrushedOverSolid(b, x + dx, y + dy, dx, dy, m - 1)
    ensures Cell(b, x, y, dx, dy, 1) == Element(b, x + dx, y + dy) != E_EMPTY
    ensures PushableAlong(Element(b, x, y), dx, dy)
  {
    SquareAhead(x, y, dx, dy, 0);
    SquareAhead(x, y, dx, dy, m - 1);
    CellHere(b, x, y, dx, dy);
    NextReached(b, x, y, dx, dy, m - 1);
    hide Ground, Valid;
  }

  /** A push depends on the square it starts on and on the push of the next one. */
  lemma PushesAlike(b: BoardState, c: BoardState, x: int, y: int, dx: int, dy: int)
    requires Valid(b) && Valid(c) && UnitStep(dx, dy) && InGrid(x, y) && InGrid(x + dx, y + dy)
    requires Element(c, x, y) == Element(b, x, y) && Element(c, x + dx, y + dy) == Element(b, x + dx, y + dy)
    requires PushableAlong(Element(b, x, y), dx, dy) && Element(b, x + dx, y + dy) !in {E_EMPTY, E_TRANSPORTER}
    requires Push(b, x + dx, y + dy, dx, dy) == Push(c, x + dx, y + dy, dx, dy)
    ensures Push(b, x, y, dx, dy) == Push(c, x, y, dx, dy)
  {
    hide Follow, Transport, Valid, Pushable;
  }

  ghost predicate NoTransporters(b: BoardState, x: int, y: int, dx: int, dy: int, m: nat)
    requires Valid(b)
  {
    forall j :: 0 <= j < m ==> Cell(b, x, y, dx, dy, j) != E_TRANSPORTER
  }

  lemma NoTransportersFromNext(b: BoardState, x: int, y: int, dx: int, dy: int, m: nat)
    requires Valid(b) && UnitStep(dx, dy) && m > 0 && NoTransporters(b, x, y, dx, dy, m)
    ensures NoTransporters(b, x + dx, y + dy, dx, dy, m - 1)
    ensures m > 1 ==> Cell(b, x, y, dx, dy, 1) != E_TRANSPORTER
  {
    hide Cell, Valid;
    var nx, ny := x + dx, y + dy;
    forall j | 0 <= j < m - 1
      ensures Cell(b, nx, ny, dx, dy, j) != E_TRANSPORTER
    {
      NextCellAhead(b, x, y, dx, dy, j);
    }
  }

  lemma CrushesFromNext(b: BoardState, x: int, y: int, dx: int, dy: int, m: nat)
    requires Valid(b) && UnitStep(dx, dy) && CrushedOverSolid(b, x, y, dx, dy, m) && m > 1
    requires InGrid(x, y) && NoTransporters(b, x, y, dx, dy, m)
    requires var p := Square(x, y, dx, dy, m);
      InGrid(p.0, p.1) && Push(b, x + dx, y + dy, dx, dy) == Push(DamageTile(b, p.0, p.1), x + dx, y + dy, dx, dy)
    ensures var p := Square(x, y, dx, dy, m);
      Push(b, x, y, dx, dy) == Push(DamageTile(b, p.0, p.1), x, y, dx, dy)
  {
    var p := Square(x, y, dx, dy, m);
    assert p != (x, y) && p != (x + dx, y + dy);
    SolidFromNext(b, x, y, dx, dy, m);
    NoTransportersFromNext(b, x, y, dx, dy, m);
    hide CrushedOverSolid, DamageTile, Cell, Push, Valid, NoTransporters, Square, Pushable;
    ElsewhereStays(b, p.0, p.1, x, y);
    ElsewhereStays(b, p.0, p.1, x + dx, y + dy);
    PushesAlike(b, DamageTile(b, p.0, p.1), x, y, dx, dy);
  }

  lemma ReachedHere(b: BoardState, x: int, y: int, dx: int, dy: int)
    requires Valid(b) && UnitStep(dx, dy) && InGrid(x, y) && Reached(b, x, y, dx, dy, 1)
    ensures Element(b, x, y) != E_EMPTY && PushableAlong(Element(b, x, y), dx, dy)
  {
    CellHere(b, x, y, dx, dy);
    hide Valid;
  }

  lemma CrushesNext(b: BoardState, x: int, y: int, dx: int, dy: int)
    requires Valid(b) && UnitStep(dx, dy) && CrushedOverSolid(b, x, y, dx, dy, 1) && InGrid(x, y)
    ensures var p := Square(x, y, dx, dy, 1);
      Push(b, x, y, dx, dy) == Push(DamageTile(b, p.0, p.1), x, y, dx, dy)
  {
    SquareAhead(x, y, dx, dy, 0);
    ReachedHere(b, x, y, dx, dy);
    hide DamageTile, Push, Valid, CrushedOverSolid, Square, PushableAlong;
    EndsAtSolid(b, x, y, dx, dy);
  }

  /** It is gone, and the push goes on as if it had never been there. */
  lemma {:induction false} CrushesThenPushes(b: BoardState, x: int, y: int, dx: int, dy: int, m: nat)
    requires Valid(b) && UnitStep(dx, dy) && CrushedOverSolid(b, x, y, dx, dy, m)
    requires InGrid(x, y) && NoTransporters(b, x, y, dx, dy, m)
    ensures var p := Square(x, y, dx, dy, m);
      InGrid(p.0, p.1) && Push(b, x, y, dx, dy) == Push(DamageTile(b, p.0, p.1), x, y, dx, dy)
    decreases m
  {
    hide *;
    InGridAndMore(b, x, y, dx, dy, m);
    if m == 1 {
      CrushesNext(b, x, y, dx, dy);
    } else {
      SolidFromNext(b, x, y, dx, dy, m);
      NoTransportersFromNext(b, x, y, dx, dy, m);
      SquareAhead(x, y, dx, dy, m - 1);
      CrushesThenPushes(b, x + dx, y + dy, dx, dy, m - 1);
      CrushesFromNext(b, x, y, dx, dy, m);
    }
  }

  lemma InGridAndMore(b: BoardState, x: int, y: int, dx: int, dy: int, m: nat)
    requires Valid(b) && CrushedOverSolid(b, x, y, dx, dy, m)
    ensures var p := Square(x, y, dx, dy, m); InGrid(p.0, p.1) && m >= 1
  {
  }

  lemma EndsAtSolid(b: BoardState, x: int, y: int, dx: int, dy: int)
    requires Valid(b) && UnitStep(dx, dy) && InGrid(x, y) && CrushedOverSolid(b, x, y, dx, dy, 1)
    requires Element(b, x, y) != E_EMPTY && PushableAlong(Element(b, x, y), dx, dy)
    ensures InGrid(x + dx, y + dy)
    ensures Push(b, x, y, dx, dy) == Push(DamageTile(b, x + dx, y + dy), x, y, dx, dy)
  {
    hide RemoveStat, Ground, ElementMove, DamageTile, Push;
    var nx, ny := x + dx, y + dy;
    SquareAhead(x, y, dx, dy, 0);
    DamageThere(b, nx, ny);
    ElsewhereStays(b, nx, ny, x, y);
    var c := DamageTile(b, nx, ny);
    StuckPush(b, nx, ny, dx, dy);
    StuckPush(c, nx, ny, dx, dy);
    PlainPush(b, x, y, dx, dy);
    PlainPush(c, x, y, dx, dy);
    assert Follow(b, x, y, dx, dy) == Done(c) == Follow(c, x, y, dx, dy);
  }
}
