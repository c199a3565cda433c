/** What a push does to each kind of thing, told by element codes (engine/elements.go
    and its table): what moves at all, which way a slider goes, what gets crushed. */
module PushLaws {
  import opened GameVars
  import opened BoardSpec
  import opened PushSpec
  import opened PushMeaning
  import opened PushConservation
  import opened StatTable

  // ---- One square --------------------------------------------------------

  /** Onto an empty square move players, ammo, gems, keys, scrolls, bombs, boulders and
      beasts in every direction; code 25 along columns only, code 26 along rows only. */
  predicate Goes(element: Byte, dx: int, dy: int) {
    || element in {0, 4, 5, 7, 8, 10, 13, 24, 34, 35, 41, 42}
    || (element == 25 && dx == 0) || (element == 26 && dy == 0)
  }

  /** The thing on (x, y) now stands on the next square: a stat over what that square
      showed and off what it stood on, a bare tile with its colour. */
  ghost predicate Stepped(b: BoardState, c: BoardState, x: int, y: int, dx: int, dy: int) {
    && Valid(b) && Valid(c) && InGrid(x, y) && InGrid(x + dx, y + dy)
    && c.tiles[(x + dx, y + dy)].Element == b.tiles[(x, y)].Element
    && (forall px, py :: InGrid(px, py) && (px, py) != (x, y) && (px, py) != (x + dx, y + dy) ==>
          c.tiles[(px, py)] == b.tiles[(px, py)])
    && c == b.(tiles := c.tiles, stats := c.stats)
    && var s := StatAt(b, x, y);
      if s < 0 then
        && c.stats == b.stats && c.tiles[(x + dx, y + dy)] == b.tiles[(x, y)]
        && c.tiles[(x, y)] == TTile(0, b.tiles[(x, y)].Color)
      else
        && c.tiles[(x, y)] == b.stats[s].Under && InByte(x + dx) && InByte(y + dy)
        && c.stats == b.stats[s := b.stats[s].(X := x + dx, Y := y + dy, Under := b.tiles[(x + dx, y + dy)])]
  }

  predicate InByte(v: int) { 0 <= v < 256 }

  lemma MoveSteps(b: BoardState, x: int, y: int, dx: int, dy: int)
    requires Valid(b) && UnitStep(dx, dy) && InGrid(x, y) && InGrid(x + dx, y + dy)
    ensures var r := ElementMove(b, x, y, x + dx, y + dy); r.Done? && Stepped(b, r.board, x, y, dx, dy)
  {
    WhoStandsThere(b, x, y);
    hide StatAt, LowNibble, Background;
  }

  /** Ahead of an empty square exactly these things move. */
  lemma MovesIntoEmpty(b: BoardState, x: int, y: int, dx: int, dy: int)
    requires Valid(b) && UnitStep(dx, dy) && InGrid(x, y) && InGrid(x + dx, y + dy)
    requires b.tiles[(x + dx, y + dy)].Element == 0
    ensures var r := Push(b, x, y, dx, dy);
      && r.Done?
      && (Goes(b.tiles[(x, y)].Element, dx, dy) ==> Stepped(b, r.board, x, y, dx, dy))
      && (!Goes(b.tiles[(x, y)].Element, dx, dy) ==> r.board == b)
  {
    hide Stepped, ElementMove, Follow, Push, StatAt;
    MoveSteps(b, x, y, dx, dy);
    if PushableAlong(b.tiles[(x, y)].Element, dx, dy) {
      PlainPush(b, x, y, dx, dy);
      FollowOpen(b, x, y, dx, dy);
    } else {
      StuckPush(b, x, y, dx, dy);
    }
  }

  lemma FollowOpen(b: BoardState, x: int, y: int, dx: int, dy: int)
    requires Valid(b) && InGrid(x, y) && InGrid(x + dx, y + dy) && Walkable(Element(b, x + dx, y + dy))
    ensures Follow(b, x, y, dx, dy) == ElementMove(b, x, y, x + dx, y + dy)
  {
    hide Valid, ElementMove, DamageTile;
  }

  /** A transporter (30) whose stat faces another way, or one without a step, lets nothing in. */
  lemma TurnedAway(b: BoardState, x: int, y: int, dx: int, dy: int)
    requires Valid(b) && UnitStep(dx, dy) && InGrid(x, y) && InGrid(x + dx, y + dy)
    requires b.tiles[(x + dx, y + dy)].Element == 30
    requires var s := StatAt(b, x + dx, y + dy); s >= 0 && (b.stats[s].StepX, b.stats[s].StepY) != (dx, dy)
    ensures Push(b, x, y, dx, dy) == Done(b)
  {
    hide Valid, Search, StatAt, ElementMove, DamageTile;
    assert Transport(b, x, y, dx, dy) == Done(b);
    assert Follow(b, x, y, dx, dy) == Done(b);
  }

  /** A transporter that faces the way of the push, with an empty square behind it, puts
      what is pushed into it on that square. */
  lemma PassesThrough(b: BoardState, x: int, y: int, dx: int, dy: int)
    requires Valid(b) && UnitStep(dx, dy) && InGrid(x, y) && InGrid(x + dx, y + dy) && InGrid(x + dx + dx, y + dy + dy)
    requires Goes(b.tiles[(x, y)].Element, dx, dy) && b.tiles[(x + dx, y + dy)].Element == 30
    requires b.tiles[(x + dx + dx, y + dy + dy)].Element == 0
    requires var s := StatAt(b, x + dx, y + dy); s >= 0 && b.stats[s].StepX == dx && b.stats[s].StepY == dy
    ensures var r := Push(b, x, y, dx, dy);
      && r.Done? && r.board.tiles[(x + dx + dx, y + dy + dy)].Element == b.tiles[(x, y)].Element
      && r.board.tiles[(x + dx, y + dy)] == b.tiles[(x + dx, y + dy)]
      && var s := StatAt(b, x, y);
        r.board.tiles[(x, y)] == if s >= 0 then b.stats[s].Under else TTile(0, b.tiles[(x, y)].Color)
  {
    hide Search, Push, Follow, Transport, ElementMove, StatAt, Valid;
    var nx, ny := x + dx, y + dy;
    var ex, ey := nx + dx, ny + dy;
    TransportsOne(b, x, y, dx, dy);
    MovedTo(b, x, y, ex, ey);
    FollowStuck(ElementMove(b, x, y, ex, ey).board, x, y, dx, dy);
    PushOf(b, x, y, dx, dy);
  }

  lemma TransportsOne(b: BoardState, x: int, y: int, dx: int, dy: int)
    requires Valid(b) && UnitStep(dx, dy) && InGrid(x, y) && InGrid(x + dx, y + dy) && InGrid(x + dx + dx, y + dy + dy)
    requires b.tiles[(x + dx + dx, y + dy + dy)].Element == 0
    requires var s := StatAt(b, x + dx, y + dy); s >= 0 && b.stats[s].StepX == dx && b.stats[s].StepY == dy
    ensures Transport(b, x, y, dx, dy) == ElementMove(b, x, y, x + dx + dx, y + dy + dy)
  {
    hide Push, Search, ElementMove, StatAt;
    WhoStandsThere(b, x + dx, y + dy);
    FindsNext(b, x + dx, y + dy, dx, dy);
  }

  lemma FindsNext(b: BoardState, x: int, y: int, dx: int, dy: int)
    requires Valid(b) && UnitStep(dx, dy) && InGrid(x, y) && InGrid(x + dx, y + dy)
    requires b.tiles[(x + dx, y + dy)].Element == 0
    ensures Search(b, x, y, dx, dy, true) == Found(b, x + dx, y + dy)
  {
    hide Push, Search, Valid;
    SearchGoesOn(b, x, y, dx, dy, true);
  }

  lemma PushOf(b: BoardState, x: int, y: int, dx: int, dy: int)
    requires Valid(b) && UnitStep(dx, dy) && InGrid(x, y) && InGrid(x + dx, y + dy)
    requires PushableAlong(Element(b, x, y), dx, dy) && Element(b, x + dx, y + dy) == 30
    ensures var t := Transport(b, x, y, dx, dy);
      Push(b, x, y, dx, dy) == if t.Panic? then Panic else Follow(t.board, x, y, dx, dy)
  {
    hide Transport, Follow, Valid;
  }

  /** What a move to another square shows: the thing there, its ground here, the rest as before. */
  lemma MovedTo(b: BoardState, x: int, y: int, ex: int, ey: int)
    requires Valid(b) && InGrid(x, y) && InGrid(ex, ey) && (x, y) != (ex, ey)
    ensures var r := ElementMove(b, x, y, ex, ey);
      && r.Done? && Valid(r.board) && r.board.tiles[(ex, ey)].Element == b.tiles[(x, y)].Element
      && (forall px, py :: InGrid(px, py) && (px, py) != (x, y) && (px, py) != (ex, ey) ==>
            r.board.tiles[(px, py)] == b.tiles[(px, py)])
      && var s := StatAt(b, x, y);
        r.board.tiles[(x, y)] == if s >= 0 then b.stats[s].Under else TTile(0, b.tiles[(x, y)].Color)
  {
    WhoStandsThere(b, x, y);
    hide StatAt, LowNibble, Background;
  }

  /** A square without a stat, or one whose stat stands on open ground. */
  ghost predicate OverOpen(b: BoardState, x: int, y: int)
    requires Valid(b)
  {
    var s := StatAt(b, x, y);
    s >= 0 ==> b.stats[s].Under.Element in {0, 27}
  }

  /** With the edge behind the next square, the push succeeds exactly when that square
      is open or holds something frail: a gem, a bullet, a beast or a centipede, but
      never a player. */
  lemma MovesAgainstEdge(b: BoardState, x: int, y: int, dx: int, dy: int)
    requires Valid(b) && UnitStep(dx, dy) && InGrid(x, y) && InGrid(x + dx, y + dy) && InGrid(x + dx + dx, y + dy + dy)
    requires b.tiles[(x + dx + dx, y + dy + dy)].Element == 1 && b.tiles[(x + dx, y + dy)].Element !in {0, 30}
    requires Goes(b.tiles[(x, y)].Element, dx, dy) && OverOpen(b, x + dx, y + dy)
    ensures var ahead, r := b.tiles[(x + dx, y + dy)].Element, Push(b, x, y, dx, dy);
      && r.Done?
      && (ahead in {27, 7, 18, 34, 35, 41, 42, 44, 45} ==>
            r.board.tiles[(x + dx, y + dy)].Element == b.tiles[(x, y)].Element)
      && (ahead !in {27, 7, 18, 34, 35, 41, 42, 44, 45} ==> r.board == b)
  {
    var nx, ny := x + dx, y + dy;
    OnlyFollow(b, x, y, dx, dy);
    if b.tiles[(nx, ny)].Element in {7, 18, 34, 35, 41, 42, 44, 45} {
      FollowCrushing(b, x, y, dx, dy);
    } else if b.tiles[(nx, ny)].Element == 27 {
      MoveSteps(b, x, y, dx, dy);
      hide Push, Valid, Stepped, ElementMove, DamageTile;
      assert Follow(b, x, y, dx, dy) == ElementMove(b, x, y, nx, ny);
      StepShown(b, ElementMove(b, x, y, nx, ny).board, x, y, dx, dy);
    } else {
      FollowStuck(b, x, y, dx, dy);
    }
  }

  lemma StepShown(b: BoardState, c: BoardState, x: int, y: int, dx: int, dy: int)
    requires Stepped(b, c, x, y, dx, dy)
    ensures Valid(b) && Valid(c) && InGrid(x, y) && InGrid(x + dx, y + dy)
    ensures c.tiles[(x + dx, y + dy)].Element == b.tiles[(x, y)].Element
  {
  }

  lemma FollowStuck(b: BoardState, x: int, y: int, dx: int, dy: int)
    requires Valid(b) && InGrid(x, y) && InGrid(x + dx, y + dy) && !GivesWay(Element(b, x + dx, y + dy))
    ensures Follow(b, x, y, dx, dy) == Done(b)
  {
    hide Valid, ElementMove, DamageTile;
  }

  /** Crushing something over open ground lays that ground bare, and touches nothing else. */
  lemma CrushedBare(b: BoardState, nx: int, ny: int, x: int, y: int)
    requires Valid(b) && InGrid(nx, ny) && InGrid(x, y) && (x, y) != (nx, ny) && OverOpen(b, nx, ny)
    ensures var c := DamageTile(b, nx, ny);
      Walkable(Element(c, nx, ny)) && Element(c, x, y) == Element(b, x, y)
  {
    WhoStandsThere(b, nx, ny);
    DamageThere(b, nx, ny);
    ElsewhereStays(b, nx, ny, x, y);
    hide DamageTile, StatAt;
  }

  lemma FollowCrushing(b: BoardState, x: int, y: int, dx: int, dy: int)
    requires Valid(b) && UnitStep(dx, dy) && InGrid(x, y) && InGrid(x + dx, y + dy)
    requires Crushable(Element(b, x + dx, y + dy)) && OverOpen(b, x + dx, y + dy)
    ensures var r := Follow(b, x, y, dx, dy);
      r.Done? && r.board.tiles[(x + dx, y + dy)].Element == b.tiles[(x, y)].Element
  {
    hide DamageTile, Stepped, ElementMove, OverOpen, Walkable, Destructible;
    var nx, ny := x + dx, y + dy;
    CrushedBare(b, nx, ny, x, y);
    var c := DamageTile(b, nx, ny);
    MoveSteps(c, x, y, dx, dy);
    StepShown(c, ElementMove(c, x, y, nx, ny).board, x, y, dx, dy);
  }

  /** What lies on the next square cannot move on against the edge. */
  lemma OnlyFollow(b: BoardState, x: int, y: int, dx: int, dy: int)
    requires Valid(b) && UnitStep(dx, dy) && InGrid(x, y) && InGrid(x + dx, y + dy) && InGrid(x + dx + dx, y + dy + dy)
    requires Element(b, x + dx + dx, y + dy + dy) == 1 && Element(b, x + dx, y + dy) !in {0, 30}
    requires PushableAlong(Element(b, x, y), dx, dy)
    ensures Push(b, x, y, dx, dy) == Follow(b, x, y, dx, dy)
  {
    hide Push, Valid, Follow;
    NothingAgainstEdge(b, x + dx, y + dy, dx, dy);
    PlainPush(b, x, y, dx, dy);
  }

  lemma NothingAgainstEdge(b: BoardState, x: int, y: int, dx: int, dy: int)
    requires Valid(b) && UnitStep(dx, dy) && InGrid(x, y) && InGrid(x + dx, y + dy) && Element(b, x + dx, y + dy) == 1
    ensures Push(b, x, y, dx, dy) == Done(b)
  {
    hide Push, Follow;
    if PushableAlong(Element(b, x, y), dx, dy) {
      StuckPush(b, x + dx, y + dy, dx, dy);
      PlainPush(b, x, y, dx, dy);
      FollowStuck(b, x, y, dx, dy);
    } else {
      StuckPush(b, x, y, dx, dy);
    }
  }

  // ---- Sliders keep to their lines ---------------------------------------

  predicate InLine(p: Coord, column: bool, at: int) { if column then p.0 == at else p.1 == at }

  ghost function Showing(tiles: map<Coord, TTile>, element: Byte, column: bool, at: int): set<Coord> {
    set c | c in tiles && tiles[c].Element == element && InLine(c, column, at)
  }

  function CoveredBy(s: TStat, element: Byte, column: bool, at: int): nat {
    Unit(s.Under.Element == element && InLine((s.X as int, s.Y as int), column, at))
  }

  /** How many of the first n stats stand in the line on top of `element`. */
  function CoveringIn(stats: seq<TStat>, n: nat, element: Byte, column: bool, at: int): nat
    requires n <= |stats|
  {
    if n == 0 then 0 else CoveringIn(stats, n - 1, element, column, at) + CoveredBy(stats[n - 1], element, column, at)
  }

  /** How many of `element` there are in one column or row, on tiles and under stats. */
  ghost function CountIn(b: BoardState, element: Byte, column: bool, at: int): nat
    requires Valid(b)
  {
    |Showing(b.tiles, element, column, at)| + CoveringIn(b.stats, b.count + 1, element, column, at)
  }

  lemma ShowingUpdate(tiles: map<Coord, TTile>, c: Coord, t: TTile, element: Byte, column: bool, at: int)
    requires c in tiles
    ensures |Showing(tiles[c := t], element, column, at)| + Unit(tiles[c].Element == element && InLine(c, column, at))
         == |Showing(tiles, element, column, at)| + Unit(t.Element == element && InLine(c, column, at))
  {
    var rest := Showing(tiles, element, column, at) - {c};
    var before, after := Showing(tiles, element, column, at), Showing(tiles[c := t], element, column, at);
    assert before == if tiles[c].Element == element && InLine(c, column, at) then rest + {c} else rest;
    assert after == if t.Element == element && InLine(c, column, at) then rest + {c} else rest;
  }

  lemma {:induction false} CoveringInSame(stats: seq<TStat>, other: seq<TStat>, n: nat, element: Byte, column: bool,
          at: int)
    requires n <= |stats| && n <= |other|
    requires forall k :: 0 <= k < n ==>
      CoveredBy(stats[k], element, column, at) == CoveredBy(other[k], element, column, at)
    ensures CoveringIn(stats, n, element, column, at) == CoveringIn(other, n, element, column, at)
  {
    if n > 0 {
      CoveringInSame(stats, other, n - 1, element, column, at);
    }
  }

  lemma {:induction false} CoveringInUpdate(stats: seq<TStat>, n: nat, id: nat, s: TStat, element: Byte, column: bool,
          at: int)
    requires n <= |stats| && id < n
    ensures CoveringIn(stats[id := s], n, element, column, at) + CoveredBy(stats[id], element, column, at)
         == CoveringIn(stats, n, element, column, at) + CoveredBy(s, element, column, at)
  {
    if id == n - 1 {
      CoveringInSame(stats, stats[id := s], n - 1, element, column, at);
    } else {
      CoveringInUpdate(stats, n - 1, id, s, element, column, at);
    }
  }

  lemma {:induction false} CoveringInRemoved(stats: seq<TStat>, other: seq<TStat>, n: nat, id: nat, element: Byte,
          column: bool, at: int)
    requires id < n <= |stats| && n - 1 <= |other|
    requires forall k :: 0 <= k < n - 1 ==> SameStat(other[k], stats[KeyBefore(k, id)])
    ensures CoveringIn(stats, n, element, column, at)
         == CoveringIn(other, n - 1, element, column, at) + CoveredBy(stats[id], element, column, at)
  {
    if id == n - 1 {
      forall k | 0 <= k < n - 1
        ensures CoveredBy(stats[k], element, column, at) == CoveredBy(other[k], element, column, at)
      {
        assert SameStat(other[k], stats[KeyBefore(k, id)]);
      }
      CoveringInSame(stats, other, n - 1, element, column, at);
    } else {
      assert SameStat(other[n - 2], stats[KeyBefore(n - 2, id)]);
      CoveringInRemoved(stats, other, n - 1, id, element, column, at);
    }
  }

  lemma MoveStatCounts(b: BoardState, id: int, nx: int, ny: int, element: Byte, column: bool, at: int)
    requires Valid(b) && 0 <= id <= b.count && InGrid(nx, ny) && !StandsOn(b, id, nx, ny)
    ensures var s := b.stats[id];
      var shown := Element(b, s.X, s.Y) == element;
      CountIn(MoveStat(b, id, nx, ny), element, column, at)
        + Unit(shown && InLine((s.X as int, s.Y as int), column, at))
      == CountIn(b, element, column, at) + Unit(shown && InLine((nx, ny), column, at))
  {
    var s := b.stats[id];
    var ground, here := b.tiles[(nx, ny)], (s.X as int, s.Y as int);
    var mover := ArrivedTile(b.tiles[here], ground);
    var arrived := b.tiles[(nx, ny) := mover];
    ShowingUpdate(b.tiles, (nx, ny), mover, element, column, at);
    ShowingUpdate(arrived, here, s.Under, element, column, at);
    CoveringInUpdate(b.stats, b.count + 1, id, s.(Under := ground, X := nx, Y := ny), element, column, at);
    hide Showing, CoveringIn;
  }

  lemma ElementMoveCounts(b: BoardState, x: int, y: int, nx: int, ny: int, element: Byte, column: bool, at: int)
    requires Valid(b) && InGrid(x, y) && InGrid(nx, ny) && (x, y) != (nx, ny)
    requires element != 0 && Element(b, nx, ny) != element
    requires Element(b, x, y) != element || (InLine((x, y), column, at) <==> InLine((nx, ny), column, at))
    ensures var r := ElementMove(b, x, y, nx, ny);
      r.Done? && CountIn(r.board, element, column, at) == CountIn(b, element, column, at)
  {
    WhoStandsThere(b, x, y);
    var id := StatAt(b, x, y);
    if id >= 0 {
      MoveStatCounts(b, id, nx, ny, element, column, at);
    } else {
      var moved := b.tiles[(nx, ny) := b.tiles[(x, y)]];
      ShowingUpdate(b.tiles, (nx, ny), b.tiles[(x, y)], element, column, at);
      ShowingUpdate(moved, (x, y), moved[(x, y)].(Element := E_EMPTY), element, column, at);
    }
    hide StatAt, Showing, CoveringIn, MoveStat;
  }

  lemma RemoveStatCounts(b: BoardState, id: int, element: Byte, column: bool, at: int)
    requires Valid(b) && 0 <= id <= b.count && Element(b, b.stats[id].X, b.stats[id].Y) != element
    ensures CountIn(RemoveStat(b, id), element, column, at) == CountIn(b, element, column, at)
  {
    hide RemoveStat;
    var r, s := RemoveStat(b, id), b.stats[id];
    RestOfRemoval(b, id);
    forall k | 0 <= k < b.count
      ensures SameStat(r.stats[k], b.stats[KeyBefore(k, id)])
    {
      SurvivorSlot(b, id, KeyBefore(k, id));
    }
    CoveringInRemoved(b.stats, r.stats, b.count + 1, id, element, column, at);
    ShowingUpdate(b.tiles, (s.X as int, s.Y as int), s.Under, element, column, at);
    hide Showing, CoveringIn;
  }

  lemma DamageCounts(b: BoardState, x: int, y: int, element: Byte, column: bool, at: int)
    requires Valid(b) && InGrid(x, y) && Element(b, x, y) != element && element != 0
    ensures CountIn(DamageTile(b, x, y), element, column, at) == CountIn(b, element, column, at)
  {
    WhoStandsThere(b, x, y);
    hide RemoveStat, CountIn, StatAt;
    var id := StatAt(b, x, y);
    if id >= 0 {
      RemoveStatCounts(b, id, element, column, at);
    } else {
      TileCounts(b, x, y, element, column, at);
    }
  }

  lemma TileCounts(b: BoardState, x: int, y: int, element: Byte, column: bool, at: int)
    requires Valid(b) && InGrid(x, y) && Element(b, x, y) != element && element != 0
    ensures var c := b.(tiles := b.tiles[(x, y) := b.tiles[(x, y)].(Element := E_EMPTY)]);
      Valid(c) && CountIn(c, element, column, at) == CountIn(b, element, column, at)
  {
    ShowingUpdate(b.tiles, (x, y), b.tiles[(x, y)].(Element := E_EMPTY), element, column, at);
    hide Showing, CoveringIn;
  }

  /** Code 25 counted by columns, code 26 by rows. */
  predicate OwnLine(element: Byte, column: bool) { (element == 25 && column) || (element == 26 && !column) }

  lemma FollowCounts(b: BoardState, x: int, y: int, dx: int, dy: int, element: Byte, column: bool, at: int)
    requires Valid(b) && UnitStep(dx, dy) && InGrid(x, y) && InGrid(x + dx, y + dy) && OwnLine(element, column)
    requires PushableAlong(Element(b, x, y), dx, dy)
    ensures var r := Follow(b, x, y, dx, dy);
      r.Done? && CountIn(r.board, element, column, at) == CountIn(b, element, column, at)
  {
    var nx, ny := x + dx, y + dy;
    hide CountIn, ElementMove, DamageTile, StatAt;
    var c := b;
    if Crushable(Element(b, nx, ny)) {
      DamageCounts(b, nx, ny, element, column, at);
      ElsewhereStays(b, nx, ny, x, y);
      c := DamageTile(b, nx, ny);
    }
    if Walkable(Element(c, nx, ny)) {
      ElementMoveCounts(c, x, y, nx, ny, element, column, at);
    }
  }

  /** A push leaves what lies behind it as it is. */
  ghost predicate BehindSame(b: BoardState, c: BoardState, x: int, y: int, dx: int, dy: int) {
    && Valid(b) && Valid(c)
    && forall px, py :: InGrid(px, py) && Dist(x, y, dx, dy, px, py) == -1 ==> c.tiles[(px, py)] == b.tiles[(px, py)]
  }

  lemma FollowBehind(b: BoardState, x: int, y: int, dx: int, dy: int)
    requires Valid(b) && UnitStep(dx, dy) && InGrid(x, y) && InGrid(x + dx, y + dy) && Follow(b, x, y, dx, dy).Done?
    ensures BehindSame(b, Follow(b, x, y, dx, dy).board, x, y, dx, dy)
  {
    var nx, ny := x + dx, y + dy;
    var r := Follow(b, x, y, dx, dy).board;
    forall px, py | InGrid(px, py) && Dist(x, y, dx, dy, px, py) == -1
      ensures r.tiles[(px, py)] == b.tiles[(px, py)]
    {
      FollowBehindAt(b, x, y, dx, dy, px, py);
    }
    hide Follow;
  }

  lemma FollowBehindAt(b: BoardState, x: int, y: int, dx: int, dy: int, px: int, py: int)
    requires Valid(b) && UnitStep(dx, dy) && InGrid(x, y) && InGrid(x + dx, y + dy) && Follow(b, x, y, dx, dy).Done?
    requires InGrid(px, py) && Dist(x, y, dx, dy, px, py) == -1
    ensures Follow(b, x, y, dx, dy).board.tiles[(px, py)] == b.tiles[(px, py)]
  {
    var nx, ny := x + dx, y + dy;
    assert (px, py) != (x, y) && (px, py) != (nx, ny);
    TileElsewhere(b, nx, ny, px, py);
    hide Dist, DamageTile, ElementMove, Stepped, Valid, StatAt;
    var c := if Crushable(Element(b, nx, ny)) then DamageTile(b, nx, ny) else b;
    MoveSteps(c, x, y, dx, dy);
    StepElsewhere(c, ElementMove(c, x, y, nx, ny).board, x, y, dx, dy, px, py);
  }

  lemma StepElsewhere(b: BoardState, c: BoardState, x: int, y: int, dx: int, dy: int, px: int, py: int)
    requires Stepped(b, c, x, y, dx, dy) && InGrid(px, py) && (px, py) != (x, y) && (px, py) != (x + dx, y + dy)
    ensures Valid(b) && Valid(c) && c.tiles[(px, py)] == b.tiles[(px, py)]
  {
    hide StatAt;
  }

  lemma TileElsewhere(b: BoardState, qx: int, qy: int, px: int, py: int)
    requires Valid(b) && InGrid(qx, qy) && InGrid(px, py) && (qx, qy) != (px, py)
    ensures DamageTile(b, qx, qy).tiles[(px, py)] == b.tiles[(px, py)]
  {
    hide RemoveStat;
    WhoStandsThere(b, qx, qy);
    if StatAt(b, qx, qy) >= 0 {
      RestOfRemoval(b, StatAt(b, qx, qy));
    }
  }

  /** No transporter lies ahead of (x, y). */
  ghost predicate NoneAhead(b: BoardState, x: int, y: int, dx: int, dy: int)
    requires Valid(b)
  {
    forall px, py :: InGrid(px, py) && Dist(x, y, dx, dy, px, py) >= 1 ==> b.tiles[(px, py)].Element != 30
  }

  lemma NoneFromNext(b: BoardState, x: int, y: int, dx: int, dy: int)
    requires Valid(b) && UnitStep(dx, dy) && NoneAhead(b, x, y, dx, dy)
    ensures NoneAhead(b, x + dx, y + dy, dx, dy)
    ensures InGrid(x + dx, y + dy) ==> Element(b, x + dx, y + dy) != 30
  {
    forall px, py | InGrid(px, py) && Dist(x + dx, y + dy, dx, dy, px, py) >= 1
      ensures b.tiles[(px, py)].Element != 30
    {
      FromNext(x, y, dx, dy, px, py);
    }
    Near(x, y, dx, dy, x + dx, y + dy);
  }

  lemma BehindFromNext(b: BoardState, c: BoardState, d: BoardState, x: int, y: int, dx: int, dy: int)
    requires UnitStep(dx, dy) && BehindSame(b, c, x + dx, y + dy, dx, dy) && BehindSame(c, d, x, y, dx, dy)
    ensures BehindSame(b, d, x, y, dx, dy)
  {
    forall px, py | InGrid(px, py) && Dist(x, y, dx, dy, px, py) == -1
      ensures d.tiles[(px, py)] == b.tiles[(px, py)]
    {
      FromNext(x, y, dx, dy, px, py);
    }
  }

  /** A push keeps the number of code 25 in every column and of code 26 in every row. */
  lemma {:induction false} SlidersKeepTheirLines(b: BoardState, x: int, y: int, dx: int, dy: int, element: Byte,
          column: bool, at: int)
    requires Valid(b) && UnitStep(dx, dy) && Push(b, x, y, dx, dy).Done? && NoneAhead(b, x, y, dx, dy)
    requires OwnLine(element, column)
    ensures var c := Push(b, x, y, dx, dy).board;
      CountIn(c, element, column, at) == CountIn(b, element, column, at) && BehindSame(b, c, x, y, dx, dy)
    decreases Room(x, y, dx, dy)
  {
    hide Follow, CountIn, BehindSame, NoneAhead, Pushable, Push, OwnLine;
    BehindNothing(b, x, y, dx, dy);
    PushUnfolds(b, x, y, dx, dy);
    if PushableAlong(Element(b, x, y), dx, dy) {
      var nx, ny := x + dx, y + dy;
      NoneFromNext(b, x, y, dx, dy);
      var c := b;
      if Element(b, nx, ny) != E_EMPTY {
        SlidersKeepTheirLines(b, nx, ny, dx, dy, element, column, at);
        c := Push(b, nx, ny, dx, dy).board;
      } else {
        BehindNothing(b, nx, ny, dx, dy);
      }
      SameBehind(b, c, x, y, dx, dy);
      FollowCounts(c, x, y, dx, dy, element, column, at);
      FollowBehind(c, x, y, dx, dy);
      BehindFromNext(b, c, Follow(c, x, y, dx, dy).board, x, y, dx, dy);
    }
  }

  lemma BehindNothing(b: BoardState, x: int, y: int, dx: int, dy: int)
    requires Valid(b)
    ensures BehindSame(b, b, x, y, dx, dy)
  {
  }

  lemma SameBehind(b: BoardState, c: BoardState, x: int, y: int, dx: int, dy: int)
    requires UnitStep(dx, dy) && BehindSame(b, c, x + dx, y + dy, dx, dy) && InGrid(x, y)
    ensures Valid(c) && c.tiles[(x, y)] == b.tiles[(x, y)]
  {
    Near(x, y, dx, dy, x, y);
    FromNext(x, y, dx, dy, x, y);
  }

  // ---- All of it ---------------------------------------------------------

  /** What a push that returned has made of b, told without its code. */
  ghost predicate ObeysLaws(b: BoardState, c: BoardState, x: int, y: int, dx: int, dy: int) {
    && Valid(b) && Valid(c) && InGrid(x, y)
    && (NoneAhead(b, x, y, dx, dy) ==>
          forall at :: CountIn(c, 25, true, at) == CountIn(b, 25, true, at)
                       && CountIn(c, 26, false, at) == CountIn(b, 26, false, at))
    && (InGrid(x + dx, y + dy) && b.tiles[(x + dx, y + dy)].Element == 0 ==>
          if Goes(b.tiles[(x, y)].Element, dx, dy) then Stepped(b, c, x, y, dx, dy) else c == b)
  }

  lemma PushObeysLaws(b: BoardState, x: int, y: int, dx: int, dy: int)
    requires Valid(b) && UnitStep(dx, dy) && Push(b, x, y, dx, dy).Done?
    ensures ObeysLaws(b, Push(b, x, y, dx, dy).board, x, y, dx, dy)
  {
    var c := Push(b, x, y, dx, dy).board;
    PushUnfolds(b, x, y, dx, dy);
    hide Push, CountIn, NoneAhead, Stepped, Valid, UnitStep;
    if NoneAhead(b, x, y, dx, dy) {
      forall at
        ensures CountIn(c, 25, true, at) == CountIn(b, 25, true, at)
        ensures CountIn(c, 26, false, at) == CountIn(b, 26, false, at)
      {
        SlidersKeepTheirLines(b, x, y, dx, dy, 25, true, at);
        SlidersKeepTheirLines(b, x, y, dx, dy, 26, false, at);
      }
    }
    if InGrid(x + dx, y + dy) && (x + dx, y + dy) in b.tiles && b.tiles[(x + dx, y + dy)].Element == 0 {
      MovesIntoEmpty(b, x, y, dx, dy);
    }
  }
}
