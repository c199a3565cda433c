/** The tick of a centipede's head when the square ahead is free (engine/elements.go):
    which loose segment a tail takes on, and the loop that moves everybody. */
module CentipedeTick {
  import opened GameVars
  import opened BoardSpec
  import opened StatTable
  import opened Centipede
  import opened CentipedeMarch
  import opened Game

  // ---- Loose segments ----------------------------------------------------

  ghost predicate LooseAt(b: BoardState, x: int, y: int)
    requires Valid(b)
  {
    Segment(b, (x, y)) && StatAt(b, x, y) >= 0 && b.stats[StatAt(b, x, y)].Leader < 0
  }

  /** The stat a tail takes on that left (tx, ty) by the step (ix, iy): the first
      loose segment behind or beside that square. */
  ghost function Adopted(b: BoardState, tx: int, ty: int, ix: int, iy: int): int
    requires Valid(b)
  {
    if LooseAt(b, tx - ix, ty - iy) then StatAt(b, tx - ix, ty - iy)
    else if LooseAt(b, tx - iy, ty - ix) then StatAt(b, tx - iy, ty - ix)
    else if LooseAt(b, tx + iy, ty + ix) then StatAt(b, tx + iy, ty + ix)
    else -1
  }

  method LooseSegment(e: Engine, x: int, y: int) returns (f: int)
    requires e.Ok() && InGrid(x, y) && SegmentsBacked(e.Value())
    ensures f == if LooseAt(e.Value(), x, y) then StatAt(e.Value(), x, y) else -1
    ensures f == -1 <==> !LooseAt(e.Value(), x, y)
  {
    f := -1;
    e.GridAt(x, y);
    if e.Tiles[x, y].Element == E_CENTIPEDE_SEGMENT {
      var id := e.GetStatIdAt(x, y);
      assert Segment(e.Value(), (x, y));
      IsAt(e.Value(), x, y);
      if e.Stats[id].Leader < 0 {
        f := id;
      }
    }
  }

  method Adopt(e: Engine, tx: int, ty: int, ix: int, iy: int) returns (f: int)
    requires e.Ok() && SegmentsBacked(e.Value()) && OnBoard(tx, ty) && Unit(ix, iy)
    ensures f == Adopted(e.Value(), tx, ty, ix, iy)
  {
    hide SegmentsBacked, StatAt, LooseAt, Valid;
    f := LooseSegment(e, tx - ix, ty - iy);
    if f == -1 {
      f := LooseSegment(e, tx - iy, ty - ix);
      if f == -1 {
        f := LooseSegment(e, tx + iy, ty + ix);
      }
    }
  }

  // ---- The loop ----------------------------------------------------------

  /** Where the march stands after moving the last of `ids`. */
  ghost predicate Marching(b0: BoardState, b: BoardState, ids: seq<int>) {
    && Trail(b0, b, ids) && InOrder(b, ids[0]) && Vacated(b, At(b0.stats[ids[|ids| - 1]]))
  }

  lemma HeadMoves(b: BoardState, h: int)
    requires InOrder(b, h) && Unit(b.stats[h].StepX, b.stats[h].StepY) && OnBoard(b.stats[h].X, b.stats[h].Y)
    requires Vacated(b, (b.stats[h].X + b.stats[h].StepX, b.stats[h].Y + b.stats[h].StepY))
    ensures Marching(b, MoveStat(b, h, b.stats[h].X + b.stats[h].StepX, b.stats[h].Y + b.stats[h].StepY), [h])
  {
    hide Marching, SegmentsBacked, MoveStat, StatAt, Follows;
    HeadParts(b, h);
    var x, y := b.stats[h].X + b.stats[h].StepX, b.stats[h].Y + b.stats[h].StepY;
    MoveKeepsBacked(b, h, x, y);
    MovedTile(b, h, x, y);
    HeadMoved(b, MoveStat(b, h, x, y), h, x, y);
  }

  lemma HeadMoved(b: BoardState, r: BoardState, h: int, x: int, y: int)
    requires InOrder(b, h) && Unit(b.stats[h].StepX, b.stats[h].StepY) && OnBoard(x, y)
    requires x == b.stats[h].X + b.stats[h].StepX && y == b.stats[h].Y + b.stats[h].StepY
    requires r == MoveStat(b, h, x, y) && SegmentsBacked(r) && Vacated(r, At(b.stats[h]))
    requires r.tiles[(x, y)].Element == E_CENTIPEDE_HEAD
    ensures Marching(b, r, [h])
  {
    hide SegmentsBacked, Vacated;
    assert r.stats == b.stats[h := b.stats[h].(Under := b.tiles[(x, y)], X := x, Y := y)] && r.count == b.count;
    assert At(r.stats[h]) == (x, y) && Valid(r);
    hide MoveStat, Valid;
    assert Marched(b, r, [h], 0);
    forall i | 0 <= i <= r.count
      ensures Follows(r, i) && r.stats[i].Follower as int != h
    {
      assert Follows(b, i);
    }
  }

  /** The leader takes f as its follower and f steps onto the square the leader left. */
  method Pull(e: Engine, id: int, f: int, tx: int, ty: int)
    requires e.Ok() && 0 < id <= e.StatCount && 0 < f <= e.StatCount && id != f
    requires InGrid(tx, ty) && Unit(tx - e.Stats[f].X, ty - e.Stats[f].Y)
    modifies e.Stats, e.Tiles
    ensures e.Ok() && e.Value() == Tow(old(e.Value()), id, f, tx, ty)
  {
    ghost var b := e.Value();
    e.SetStat(id, e.Stats[id].(Follower := f));
    e.SetStat(f, Led(e.Stats[f], e.Stats[id], id, tx, ty));
    SameState(e.Value(), Hooked(b, id, f, tx, ty));
    e.MoveStat(f, tx, ty);
  }

  lemma MarchFacts(b0: BoardState, b: BoardState, ids: seq<int>)
    requires Marching(b0, b, ids)
    ensures |ids| > 0 && Members(ids, b.count) && b.count == b0.count <= MAX_STAT
      && |b.stats| == |b0.stats| == STAT_SLOTS
    ensures Valid(b0) && Valid(b) && SegmentsBacked(b) && InOrder(b, ids[0])
    ensures var id := ids[|ids| - 1]; var s, at := b.stats[id], At(b0.stats[id]);
      && at == (s.X - s.StepX, s.Y - s.StepY) && Unit(s.StepX, s.StepY) && OnBoard(at.0, at.1)
      && (s.Follower == -1 || 0 < s.Follower <= b.count) && s.Follower == b0.stats[id].Follower
  {
    TrailTable(b0, b, ids);
    hide SegmentsBacked, Hitched, Unoccupied, Segment, Valid, Distinct, Members;
    assert Marched(b0, b, ids, |ids| - 1) && Follows(b, ids[|ids| - 1]);
  }

  lemma TrailTable(b0: BoardState, b: BoardState, ids: seq<int>)
    requires Trail(b0, b, ids)
    ensures |ids| > 0 && Members(ids, b.count) && b.count == b0.count <= MAX_STAT
      && |b.stats| == |b0.stats| == STAT_SLOTS && 0 < ids[|ids| - 1] <= b.count
  {
  }

  /** The next to move can be towed, because it follows or because it is loose. */
  lemma FollowerCanMove(b0: BoardState, b: BoardState, ids: seq<int>, f: int)
    requires Marching(b0, b, ids) && (forall i :: 0 <= i <= b0.count ==> Follows(b0, i)) && Adjacent(b0)
    requires f == b.stats[ids[|ids| - 1]].Follower as int > 0
    ensures CanMove(b0, b, ids, f)
  {
    MarchFacts(b0, b, ids);
    NextIsNew(b0, b, ids, f);
    assert b.stats[f] == b0.stats[f] && Beside(b0.stats[ids[|ids| - 1]], b0.stats[f]);
  }

  lemma LooseCanMove(b0: BoardState, b: BoardState, ids: seq<int>, f: int)
    requires Marching(b0, b, ids) && b.stats[ids[|ids| - 1]].Follower == -1
    requires var s := b.stats[ids[|ids| - 1]];
      f == Adopted(b, s.X - s.StepX, s.Y - s.StepY, s.StepX, s.StepY) != -1
    ensures CanMove(b0, b, ids, f)
  {
    hide Adopted, SegmentsBacked;
    MarchFacts(b0, b, ids);
    var s := b.stats[ids[|ids| - 1]];
    AdoptedIsLoose(b, ids[0], s.X - s.StepX, s.Y - s.StepY, s.StepX, s.StepY);
    NextIsNew(b0, b, ids, f);
  }

  ghost predicate CanMove(b0: BoardState, b: BoardState, ids: seq<int>, f: int)
    requires Valid(b) && Valid(b0) && b.count == b0.count && |ids| > 0 && Members(ids, b.count)
  {
    var id := ids[|ids| - 1];
    var at := At(b0.stats[id]);
    && Towable(b, id, f) && f !in ids
    && Unit(at.0 - b.stats[f].X, at.1 - b.stats[f].Y) && OnBoard(b.stats[f].X, b.stats[f].Y)
  }

  lemma AdoptedIsLoose(b: BoardState, h: int, tx: int, ty: int, ix: int, iy: int)
    requires InOrder(b, h) && Unit(ix, iy) && Adopted(b, tx, ty, ix, iy) != -1
    ensures var f := Adopted(b, tx, ty, ix, iy);
      && 0 < f <= b.count && b.stats[f].Leader < 0 && f != h
      && Unit(tx - b.stats[f].X, ty - b.stats[f].Y) && OnBoard(b.stats[f].X, b.stats[f].Y)
  {
    hide StatAt;
    var f := Adopted(b, tx, ty, ix, iy);
    if LooseAt(b, tx - ix, ty - iy) {
      IsAt(b, tx - ix, ty - iy);
    } else if LooseAt(b, tx - iy, ty - ix) {
      IsAt(b, tx - iy, ty - ix);
    } else if LooseAt(b, tx + iy, ty + ix) {
      IsAt(b, tx + iy, ty + ix);
    }
  }

  lemma Pulled(b0: BoardState, b: BoardState, ids: seq<int>, f: int)
    requires Marching(b0, b, ids) && CanMove(b0, b, ids, f)
    ensures var at := At(b0.stats[ids[|ids| - 1]]);
      Marching(b0, Tow(b, ids[|ids| - 1], f, at.0, at.1), ids + [f])
  {
    MarchFacts(b0, b, ids);
    var id := ids[|ids| - 1];
    var at := At(b0.stats[id]);
    assert b.stats[f] == b0.stats[f] && (ids + [f])[0] == ids[0];
    hide Tow, Trail, InOrder;
    TrailGrows(b0, b, ids, f, at.0, at.1);
    TowKeepsOrder(b, ids[0], id, f, at.0, at.1);
  }

  /** The stat that marches next: the tail's follower, or the loose segment it takes on. */
  method NextToMove(e: Engine, id: int, ghost b0: BoardState, ghost b: BoardState, ghost ids: seq<int>) returns (f: int)
    requires e.Ok() && b == e.Value() && Marching(b0, b, ids) && id == ids[|ids| - 1]
    requires (forall i :: 0 <= i <= b0.count ==> Follows(b0, i)) && Adjacent(b0)
    ensures f != -1 ==> CanMove(b0, b, ids, f)
    ensures f == -1 ==> TailIsDone(b, id)
    ensures var s := b.stats[id];
      f != s.Follower ==> s.Follower == -1 && f == Adopted(b, s.X - s.StepX, s.Y - s.StepY, s.StepX, s.StepY)
  {
    hide Marching, Trail, InOrder, SegmentsBacked, Follows, Adjacent, Vacated, CanMove, Adopted, BoardSpec.Valid;
    MarchFacts(b0, b, ids);
    var s := e.Stats[id];
    assert s == b.stats[id];
    f := s.Follower;
    if f < 0 {
      f := Adopt(e, s.X - s.StepX, s.Y - s.StepY, s.StepX, s.StepY);
      if f != -1 {
        LooseCanMove(b0, b, ids, f);
      }
    } else {
      FollowerCanMove(b0, b, ids, f);
    }
  }

  // ---- What the squares show ---------------------------------------------

  /** Each member has taken its element along, and no other square has changed. */
  ghost predicate Carried(b0: BoardState, b: BoardState, ids: seq<int>)
    requires Valid(b0) && Valid(b) && forall k :: 0 <= k < |ids| ==> 0 <= ids[k] <= b.count == b0.count
  {
    && (forall k :: 0 <= k < |ids| ==>
          b.tiles[At(b.stats[ids[k]])].Element == b0.tiles[At(b0.stats[ids[k]])].Element)
    && forall p :: p in b.tiles && p in b0.tiles && Elsewhere(b0, b, ids, p) ==> b.tiles[p] == b0.tiles[p]
  }

  ghost predicate Elsewhere(b0: BoardState, b: BoardState, ids: seq<int>, p: Coord)
    requires Valid(b0) && Valid(b) && forall k :: 0 <= k < |ids| ==> 0 <= ids[k] <= b.count == b0.count
  {
    forall k :: 0 <= k < |ids| ==> p != At(b0.stats[ids[k]]) && p != At(b.stats[ids[k]])
  }

  /** A segment (45) that nobody leads stands on p, and it is none of those that have marched. */
  ghost predicate LooseOn(b: BoardState, gone: seq<int>, f: int, p: Coord)
    requires Valid(b)
  {
    && 0 < f <= b.count && f !in gone && At(b.stats[f]) == p && b.stats[f].Leader < 0
    && b.tiles[p].Element == 45
  }

  ghost predicate AnyLooseOn(b: BoardState, gone: seq<int>, p: Coord)
    requires Valid(b)
  {
    exists f :: LooseOn(b, gone, f, p)
  }

  /** f is the loose segment that a tail takes on when it has left `at` by the step
      (dx, dy): from the square behind, else from the sides, and for a step along a row
      the side that lies dx above comes first, along a column the one dy to the left. */
  ghost predicate FirstLoose(b: BoardState, gone: seq<int>, at: Coord, dx: int, dy: int, f: int)
    requires Valid(b)
  {
    var behind := (at.0 - dx, at.1 - dy);
    var first := if dy == 0 then (at.0, at.1 - dx) else (at.0 - dy, at.1);
    var second := if dy == 0 then (at.0, at.1 + dx) else (at.0 + dy, at.1);
    if AnyLooseOn(b, gone, behind) then LooseOn(b, gone, f, behind)
    else if AnyLooseOn(b, gone, first) then LooseOn(b, gone, f, first)
    else if AnyLooseOn(b, gone, second) then LooseOn(b, gone, f, second)
    else f == -1
  }

  /** What marching needs to know of the boards. */
  ghost predicate OnTheWay(b0: BoardState, b: BoardState, ids: seq<int>) {
    && Marching(b0, b, ids) && SegmentsBacked(b0) && (forall k :: 0 <= k < |ids| ==> 0 <= ids[k] <= b.count == b0.count)
    && Carried(b0, b, ids) && Vacated(b0, At(b.stats[ids[0]]))
  }

  lemma NotThere(b0: BoardState, b: BoardState, ids: seq<int>, f: int, k: int)
    requires OnTheWay(b0, b, ids) && 0 < f <= b.count && f !in ids && 0 <= k < |ids|
    ensures b.stats[f] == b0.stats[f] && At(b0.stats[f]) != At(b0.stats[ids[k]])
    ensures At(b0.stats[f]) != At(b.stats[ids[k]])
  {
    hide StatAt, Carried, InOrder;
    assert Marched(b0, b, ids, k);
  }

  /** A stat that has not marched stands on a square that has not changed. */
  lemma StandsElsewhere(b0: BoardState, b: BoardState, ids: seq<int>, f: int)
    requires OnTheWay(b0, b, ids) && 0 < f <= b.count && f !in ids
    ensures b.stats[f] == b0.stats[f] && At(b.stats[f]) in b.tiles && At(b.stats[f]) in b0.tiles
    ensures b.tiles[At(b.stats[f])] == b0.tiles[At(b.stats[f])]
  {
    forall k | 0 <= k < |ids|
      ensures b.stats[f] == b0.stats[f] && At(b0.stats[f]) != At(b0.stats[ids[k]])
      ensures At(b0.stats[f]) != At(b.stats[ids[k]])
    {
      NotThere(b0, b, ids, f, k);
    }
    MarchFacts(b0, b, ids);
    hide Marching, SegmentsBacked, Vacated, StatAt;
    assert Elsewhere(b0, b, ids, At(b.stats[f]));
  }

  lemma LooseWas(b0: BoardState, b: BoardState, ids: seq<int>, x: int, y: int)
    requires OnTheWay(b0, b, ids) && LooseAt(b, x, y)
    ensures LooseOn(b0, ids, StatAt(b, x, y), (x, y))
  {
    hide StatAt, Carried, Vacated;
    MarchFacts(b0, b, ids);
    var f := StatAt(b, x, y);
    assert f > 0 by { assert Segment(b, (x, y)); }
    IsAt(b, x, y);
    assert f != ids[0];
    NextIsNew(b0, b, ids, f);
    StandsElsewhere(b0, b, ids, f);
  }

  lemma LooseStill(b0: BoardState, b: BoardState, ids: seq<int>, f: int, x: int, y: int)
    requires OnTheWay(b0, b, ids) && LooseOn(b0, ids, f, (x, y))
    ensures LooseAt(b, x, y) && StatAt(b, x, y) == f
  {
    MarchFacts(b0, b, ids);
    StandsElsewhere(b0, b, ids, f);
    hide StatAt, Carried, Vacated, Marching, InOrder;
    TheStatAt(b, f);
  }

  /** What is loose now was loose before and has not marched. */
  ghost predicate LooseAgrees(b0: BoardState, b: BoardState, ids: seq<int>, x: int, y: int)
    requires Valid(b0) && Valid(b)
  {
    && (LooseAt(b, x, y) <==> AnyLooseOn(b0, ids, (x, y)))
    && (LooseAt(b, x, y) ==> LooseOn(b0, ids, StatAt(b, x, y), (x, y)))
  }

  lemma LooseThenAndNow(b0: BoardState, b: BoardState, ids: seq<int>, x: int, y: int)
    requires OnTheWay(b0, b, ids) && Valid(b0) && Valid(b)
    ensures LooseAgrees(b0, b, ids, x, y)
  {
    hide StatAt, OnTheWay, LooseAt, LooseOn;
    if LooseAt(b, x, y) {
      LooseWas(b0, b, ids, x, y);
    }
    if f :| LooseOn(b0, ids, f, (x, y)) {
      LooseStill(b0, b, ids, f, x, y);
    }
  }

  lemma BoardsValid(b0: BoardState, b: BoardState, ids: seq<int>)
    requires OnTheWay(b0, b, ids)
    ensures Valid(b0) && Valid(b) && |ids| > 0 && 0 <= ids[|ids| - 1] < |b.stats| == |b0.stats|
    ensures var id := ids[|ids| - 1]; var s, at := b.stats[id], At(b0.stats[id]);
      at == (s.X - s.StepX, s.Y - s.StepY) && Unit(s.StepX, s.StepY)
  {
    MarchFacts(b0, b, ids);
  }

  /** The tail takes on what FirstLoose says, told of the board before the march. */
  lemma AdoptsFirstLoose(b0: BoardState, b: BoardState, ids: seq<int>)
    requires OnTheWay(b0, b, ids)
    ensures Valid(b0) && Valid(b) && |ids| > 0 && 0 <= ids[|ids| - 1] < |b.stats| == |b0.stats|
    ensures var s, at := b.stats[ids[|ids| - 1]], At(b0.stats[ids[|ids| - 1]]);
      && FirstLoose(b0, ids, at, s.StepX, s.StepY, Adopted(b, at.0, at.1, s.StepX, s.StepY))
      && at == (s.X - s.StepX, s.Y - s.StepY)
  {
    hide *;
    BoardsValid(b0, b, ids);
    var s, at := b.stats[ids[|ids| - 1]], At(b0.stats[ids[|ids| - 1]]);
    var dx, dy := s.StepX as int, s.StepY as int;
    LooseThenAndNow(b0, b, ids, at.0 - dx, at.1 - dy);
    LooseThenAndNow(b0, b, ids, at.0 - dy, at.1 - dx);
    LooseThenAndNow(b0, b, ids, at.0 + dy, at.1 + dx);
    FirstLooseIs(b0, b, ids, at, dx, dy);
  }

  lemma FirstLooseIs(b0: BoardState, b: BoardState, ids: seq<int>, at: Coord, dx: int, dy: int)
    requires Valid(b0) && Valid(b) && Unit(dx, dy)
    requires LooseAgrees(b0, b, ids, at.0 - dx, at.1 - dy) && LooseAgrees(b0, b, ids, at.0 - dy, at.1 - dx)
    requires LooseAgrees(b0, b, ids, at.0 + dy, at.1 + dx)
    ensures FirstLoose(b0, ids, at, dx, dy, Adopted(b, at.0, at.1, dx, dy))
  {
    hide StatAt, LooseAt, LooseOn, AnyLooseOn, Valid;
    var q, r := (at.0 - dy, at.1 - dx), (at.0 + dy, at.1 + dx);
    assert dy == 0 ==> q == (at.0, at.1 - dx) && r == (at.0, at.1 + dx);
    assert dx == 0 ==> q == (at.0 - dy, at.1) && r == (at.0 + dy, at.1);
  }

  lemma HeadCarries(b: BoardState, h: int, x: int, y: int)
    requires Valid(b) && 0 < h <= b.count && Vacated(b, (x, y))
    ensures var r := MoveStat(b, h, x, y);
      r.count == b.count && Carried(b, r, [h]) && h < |r.stats| && At(r.stats[h]) == (x, y)
  {
    var r := MoveStat(b, h, x, y);
    MovedTile(b, h, x, y);
    forall p | p in b.tiles && p in r.tiles && Elsewhere(b, r, [h], p)
      ensures b.tiles[p] == r.tiles[p]
    {
      assert [h][0] == h;
      assert p != At(b.stats[h]) && p != At(r.stats[h]);
    }
  }

  /** Whoever followed nobody has taken on the first loose segment there was. */
  ghost predicate InTurn(b0: BoardState, b: BoardState, ids: seq<int>)
    requires Valid(b0) && Valid(b) && forall k :: 0 <= k < |ids| ==> 0 <= ids[k] <= b.count == b0.count
  {
    forall k {:trigger TookOn(b0, b, ids, k)} :: 0 <= k < |ids| - 1 && b0.stats[ids[k]].Follower == -1 ==>
        TookOn(b0, b, ids, k)
  }

  ghost predicate TookOn(b0: BoardState, b: BoardState, ids: seq<int>, k: int)
    requires Valid(b0) && Valid(b) && forall m :: 0 <= m < |ids| ==> 0 <= ids[m] <= b.count == b0.count
    requires 0 <= k < |ids| - 1
  {
    var s := b.stats[ids[k]];
    FirstLoose(b0, ids[..k + 1], At(b0.stats[ids[k]]), s.StepX, s.StepY, ids[k + 1])
  }

  /** What a tow of f to the square `at` does to places and squares. */
  ghost predicate Towed(b: BoardState, r: BoardState, f: int, at: Coord)
  {
    && Valid(b) && Valid(r) && r.count == b.count && 0 <= f <= b.count && at in r.tiles
    && (forall i :: 0 <= i < |b.stats| && i != f ==>
          r.stats[i] == b.stats[i].(Follower := r.stats[i].Follower))
    && At(r.stats[f]) == at && r.tiles[at].Element == b.tiles[At(b.stats[f])].Element
    && forall p :: p in b.tiles && p != at && p != At(b.stats[f]) ==> p in r.tiles && r.tiles[p] == b.tiles[p]
  }

  lemma TowIsTowed(b: BoardState, id: int, f: int, tx: int, ty: int)
    requires Valid(b) && 0 < id <= b.count && 0 < f <= b.count && id != f && Vacated(b, (tx, ty))
    requires InGrid(tx, ty) && Unit(tx - b.stats[f].X, ty - b.stats[f].Y)
    ensures Towed(b, Tow(b, id, f, tx, ty), f, (tx, ty))
  {
    hide ArrivedTile;
    var c := Hooked(b, id, f, tx, ty);
    assert c.tiles == b.tiles && At(c.stats[f]) == At(b.stats[f]);
    assert Vacated(c, (tx, ty));
    MovedTile(c, f, tx, ty);
    forall i | 0 <= i < |b.stats|
      ensures i != f ==> var r := Tow(b, id, f, tx, ty);
        r.stats[i] == b.stats[i].(Follower := r.stats[i].Follower)
    {
      TowedStats(b, id, f, tx, ty, i);
    }
  }

  lemma CarriedByMember(b0: BoardState, b: BoardState, r: BoardState, ids: seq<int>, f: int, at: Coord, k: nat)
    requires OnTheWay(b0, b, ids) && 0 < f <= b.count && f !in ids && k <= |ids|
    requires Towed(b, r, f, at) && Vacated(b, at)
    ensures var id := (ids + [f])[k];
      0 <= id <= r.count == b0.count && r.tiles[At(r.stats[id])].Element == b0.tiles[At(b0.stats[id])].Element
  {
    if k == |ids| {
      StandsElsewhere(b0, b, ids, f);
    } else {
      var id := ids[k];
      assert At(r.stats[id]) == At(b.stats[id]) != at;
      assert OnePerSquare(b);
      assert At(b.stats[id]) != At(b.stats[f]);
    }
  }

  lemma CarriedElsewhere(b0: BoardState, b: BoardState, r: BoardState, ids: seq<int>, f: int, at: Coord, p: Coord)
    requires Valid(b0) && Towed(b, r, f, at) && 0 < f <= b.count && f !in ids && |ids| > 0
    requires forall k :: 0 <= k < |ids| ==> 0 <= ids[k] <= b.count == b0.count
    requires Carried(b0, b, ids) && at == At(b0.stats[ids[|ids| - 1]]) && b0.stats[f] == b.stats[f]
    requires p in r.tiles && p in b0.tiles && Elsewhere(b0, r, ids + [f], p)
    ensures r.tiles[p] == b0.tiles[p]
  {
    var jds := ids + [f];
    assert jds[|ids|] == f && jds[|ids| - 1] == ids[|ids| - 1];
    assert p in b.tiles by { assert InGrid(p.0, p.1); }
    forall k | 0 <= k < |ids|
      ensures p != At(b0.stats[ids[k]]) && p != At(b.stats[ids[k]])
    {
      assert jds[k] == ids[k];
    }
    assert Elsewhere(b0, b, ids, p);
  }

  lemma TowCarries(b0: BoardState, b: BoardState, r: BoardState, ids: seq<int>, f: int, at: Coord)
    requires OnTheWay(b0, b, ids) && 0 < f <= b.count && f !in ids && |ids| > 0
    requires Towed(b, r, f, at) && Vacated(b, at) && Valid(b0) && b.count == b0.count
    requires 0 <= ids[|ids| - 1] <= b0.count && at == At(b0.stats[ids[|ids| - 1]])
    ensures forall k :: 0 <= k < |ids + [f]| ==> 0 <= (ids + [f])[k] <= r.count == b0.count
    ensures Carried(b0, r, ids + [f])
  {
    var jds := ids + [f];
    StandsElsewhere(b0, b, ids, f);
    assert (forall k :: 0 <= k < |ids| ==> 0 <= ids[k] <= b.count == b0.count) && Carried(b0, b, ids);
    hide Carried, OnTheWay, Vacated, Elsewhere;
    forall k | 0 <= k < |jds|
      ensures 0 <= jds[k] <= r.count == b0.count
      ensures r.tiles[At(r.stats[jds[k]])].Element == b0.tiles[At(b0.stats[jds[k]])].Element
    {
      CarriedByMember(b0, b, r, ids, f, at, k);
    }
    forall p | p in r.tiles && p in b0.tiles && Elsewhere(b0, r, jds, p)
      ensures r.tiles[p] == b0.tiles[p]
    {
      CarriedElsewhere(b0, b, r, ids, f, at, p);
    }
    CarriedIs(b0, r, jds);
  }

  lemma CarriedIs(b0: BoardState, b: BoardState, ids: seq<int>)
    requires Valid(b0) && Valid(b) && b.count == b0.count < |b.stats| == |b0.stats|
    requires forall k :: 0 <= k < |ids| ==> 0 <= ids[k] <= b.count
    requires forall k :: 0 <= k < |ids| ==>
      && At(b.stats[ids[k]]) in b.tiles && At(b0.stats[ids[k]]) in b0.tiles
      && b.tiles[At(b.stats[ids[k]])].Element == b0.tiles[At(b0.stats[ids[k]])].Element
    requires forall p :: p in b.tiles && p in b0.tiles && Elsewhere(b0, b, ids, p) ==> b.tiles[p] == b0.tiles[p]
    ensures Carried(b0, b, ids)
  {
  }

  /** The march so far: everybody in line, on the squares and in the order of adoption. */
  ghost predicate OnMarch(b0: BoardState, b: BoardState, ids: seq<int>) {
    OnTheWay(b0, b, ids) && Valid(b0) && Valid(b) && InTurn(b0, b, ids)
  }

  lemma InTurnGrows(b0: BoardState, b: BoardState, r: BoardState, ids: seq<int>, f: int, at: Coord)
    requires OnMarch(b0, b, ids) && |ids| > 0 && 0 < f <= b.count && f !in ids && Towed(b, r, f, at)
    requires forall k :: 0 <= k < |ids + [f]| ==> 0 <= (ids + [f])[k] <= r.count == b0.count
    requires b0.stats[ids[|ids| - 1]].Follower == -1 ==>
      var s := b.stats[ids[|ids| - 1]];
      FirstLoose(b0, ids, At(b0.stats[ids[|ids| - 1]]), s.StepX, s.StepY, f)
    ensures InTurn(b0, r, ids + [f])
  {
    var jds := ids + [f];
    forall k | 0 <= k < |jds| - 1 && b0.stats[jds[k]].Follower == -1
      ensures TookOn(b0, r, jds, k)
    {
      assert jds[..k + 1] == ids[..k + 1] && jds[k] == ids[k];
      TookOnStays(b0, b, r, ids, f, at, k);
    }
  }

  lemma TookOnStays(b0: BoardState, b: BoardState, r: BoardState, ids: seq<int>, f: int, at: Coord, k: nat)
    requires OnMarch(b0, b, ids) && k < |ids| && 0 < f <= b.count && f !in ids && Towed(b, r, f, at)
    requires forall m :: 0 <= m < |ids + [f]| ==> 0 <= (ids + [f])[m] <= r.count == b0.count
    requires b0.stats[ids[k]].Follower == -1
    requires k == |ids| - 1 ==>
      FirstLoose(b0, ids, At(b0.stats[ids[k]]), b.stats[ids[k]].StepX, b.stats[ids[k]].StepY, f)
    ensures TookOn(b0, r, ids + [f], k)
  {
    hide OnTheWay, FirstLoose, Carried, Elsewhere;
    assert forall m :: 0 <= m < |ids| ==> ids[m] == (ids + [f])[m];
    assert (ids + [f])[..k + 1] == ids[..k + 1] && (ids + [f])[k] == ids[k];
    if k < |ids| - 1 {
      assert InTurn(b0, b, ids) && TookOn(b0, b, ids, k);
      assert (ids + [f])[k + 1] == ids[k + 1];
    } else {
      assert ids[..k + 1] == ids && (ids + [f])[k + 1] == f;
    }
  }

  /** Whoever moves next, the march stays what it was. */
  lemma TowOnMarch(b0: BoardState, b: BoardState, ids: seq<int>, f: int)
    requires OnMarch(b0, b, ids) && MayFollow(b0, b, ids, f)
    ensures var at := At(b0.stats[ids[|ids| - 1]]); OnMarch(b0, Tow(b, ids[|ids| - 1], f, at.0, at.1), ids + [f])
  {
    hide *;
    MayFollowFacts(b0, b, ids, f);
    var id := ids[|ids| - 1];
    var at := At(b0.stats[id]);
    var r := Tow(b, id, f, at.0, at.1);
    OnMarchFacts(b0, b, ids);
    OnMarchParts(b0, b, ids);
    Pulled(b0, b, ids, f);
    TowIsTowed(b, id, f, at.0, at.1);
    TowCarries(b0, b, r, ids, f, at);
    InTurnGrows(b0, b, r, ids, f, at);
    StillOnTheWay(b0, b, r, ids, f, at);
  }

  /** f can move and, if nobody follows the tail, is the first loose segment it finds. */
  ghost predicate MayFollow(b0: BoardState, b: BoardState, ids: seq<int>, f: int) {
    && Valid(b) && Valid(b0) && b.count == b0.count && |ids| > 0 && Members(ids, b.count) && CanMove(b0, b, ids, f)
    && (b0.stats[ids[|ids| - 1]].Follower == -1 ==>
          var s := b.stats[ids[|ids| - 1]];
          FirstLoose(b0, ids, At(b0.stats[ids[|ids| - 1]]), s.StepX, s.StepY, f))
  }

  lemma MayFollowFacts(b0: BoardState, b: BoardState, ids: seq<int>, f: int)
    requires MayFollow(b0, b, ids, f)
    ensures Valid(b) && Valid(b0) && b.count == b0.count && |ids| > 0 && Members(ids, b.count) && CanMove(b0, b, ids, f)
    ensures 0 < f <= b.count && f != ids[|ids| - 1] && f !in ids
    ensures 0 < ids[|ids| - 1] <= b.count < |b.stats| == |b0.stats|
    ensures var at := At(b0.stats[ids[|ids| - 1]]);
      Unit(at.0 - b.stats[f].X, at.1 - b.stats[f].Y) && InGrid(at.0, at.1)
    ensures b0.stats[ids[|ids| - 1]].Follower == -1 ==>
      var s := b.stats[ids[|ids| - 1]];
      FirstLoose(b0, ids, At(b0.stats[ids[|ids| - 1]]), s.StepX, s.StepY, f)
  {
    hide FirstLoose;
  }

  lemma NextMayFollow(b0: BoardState, b: BoardState, ids: seq<int>, f: int)
    requires OnMarch(b0, b, ids) && |ids| > 0 && Members(ids, b.count) && b.count == b0.count && CanMove(b0, b, ids, f)
    requires var s := b.stats[ids[|ids| - 1]];
      f != s.Follower ==> s.Follower == -1 && f == Adopted(b, s.X - s.StepX, s.Y - s.StepY, s.StepX, s.StepY)
    ensures MayFollow(b0, b, ids, f)
  {
    hide *;
    OnMarchFacts(b0, b, ids);
    OnMarchParts(b0, b, ids);
    MarchFacts(b0, b, ids);
    CanMoveFacts(b0, b, ids, f);
    AdoptsFirstLoose(b0, b, ids);
    MayFollowIs(b0, b, ids, f);
  }

  lemma MayFollowIs(b0: BoardState, b: BoardState, ids: seq<int>, f: int)
    requires Valid(b) && Valid(b0) && b.count == b0.count && |ids| > 0 && Members(ids, b.count)
    requires CanMove(b0, b, ids, f)
    requires 0 < ids[|ids| - 1] <= b.count < |b.stats| == |b0.stats|
    requires b0.stats[ids[|ids| - 1]].Follower == -1 ==>
      var s := b.stats[ids[|ids| - 1]];
      FirstLoose(b0, ids, At(b0.stats[ids[|ids| - 1]]), s.StepX, s.StepY, f)
    ensures MayFollow(b0, b, ids, f)
  {
    hide FirstLoose, CanMove, Valid;
  }

  lemma StillOnTheWay(b0: BoardState, b: BoardState, r: BoardState, ids: seq<int>, f: int, at: Coord)
    requires OnMarch(b0, b, ids) && |ids| > 0 && 0 < f <= b.count && f !in ids && Towed(b, r, f, at)
    requires forall k :: 0 <= k < |ids + [f]| ==> 0 <= (ids + [f])[k] <= r.count == b0.count
    requires Marching(b0, r, ids + [f]) && Carried(b0, r, ids + [f]) && InTurn(b0, r, ids + [f])
    ensures OnMarch(b0, r, ids + [f])
  {
    hide Marching, Carried, InTurn;
    assert (ids + [f])[0] == ids[0] && At(r.stats[ids[0]]) == At(b.stats[ids[0]]);
  }

  /** One turn of the loop. */
  method Advance(e: Engine, id: int, ghost b0: BoardState, ghost b: BoardState, ghost ids: seq<int>) returns (f: int)
    requires e.Ok() && b == e.Value() && OnMarch(b0, b, ids) && |ids| > 0 && id == ids[|ids| - 1]
    requires (forall i :: 0 <= i <= b0.count ==> Follows(b0, i)) && Adjacent(b0)
    modifies e.Stats, e.Tiles
    ensures e.Ok() && (f != -1 ==> f !in ids && 0 < f <= b0.count && OnMarch(b0, e.Value(), ids + [f]))
    ensures f == -1 ==> e.Value() == b && Done(b, ids)
  {
    hide OnMarch, OnTheWay, Marching, Trail, InOrder, SegmentsBacked, Follows, Adjacent, Vacated, CanMove, Tow,
        TailIsDone, BoardSpec.Valid, MayFollow, Adopted, Done;
    OnMarchFacts(b0, b, ids);
    MarchFacts(b0, b, ids);
    f := NextToMove(e, id, b0, b, ids);
    if f == -1 {
      DoneNow(b, ids);
    } else {
      NextMayFollow(b0, b, ids, f);
      MoveUp(e, id, f, b0, b, ids);
    }
  }

  /** The next one moves onto the square the last one left. */
  method MoveUp(e: Engine, id: int, f: int, ghost b0: BoardState, ghost b: BoardState, ghost ids: seq<int>)
    requires e.Ok() && b == e.Value() && OnMarch(b0, b, ids) && MayFollow(b0, b, ids, f)
    requires |ids| > 0 && id == ids[|ids| - 1]
    modifies e.Stats, e.Tiles
    ensures e.Ok() && f !in ids && 0 < f <= b0.count && OnMarch(b0, e.Value(), ids + [f])
  {
    hide OnMarch, BoardSpec.Valid, MayFollow, Tow, CanMove, FirstLoose;
    MayFollowFacts(b0, b, ids, f);
    TailLeft(b0, b, ids);
    TowOnMarch(b0, b, ids, f);
    var s := e.Stats[id];
    assert s == b.stats[id];
    Pull(e, id, f, s.X - s.StepX, s.Y - s.StepY);
  }

  lemma TailLeft(b0: BoardState, b: BoardState, ids: seq<int>)
    requires OnMarch(b0, b, ids)
    ensures |ids| > 0 && 0 <= ids[|ids| - 1] < |b.stats| == |b0.stats|
    ensures var s := b.stats[ids[|ids| - 1]]; At(b0.stats[ids[|ids| - 1]]) == (s.X - s.StepX, s.Y - s.StepY)
  {
    hide *;
    OnMarchFacts(b0, b, ids);
    OnMarchParts(b0, b, ids);
    MarchFacts(b0, b, ids);
  }

  lemma OnMarchFacts(b0: BoardState, b: BoardState, ids: seq<int>)
    requires OnMarch(b0, b, ids)
    ensures Marching(b0, b, ids) && Valid(b0) && Valid(b)
  {
  }

  lemma OnMarchParts(b0: BoardState, b: BoardState, ids: seq<int>)
    requires OnMarch(b0, b, ids)
    ensures OnTheWay(b0, b, ids) && |ids| > 0 && 0 < ids[|ids| - 1] <= b.count < |b.stats| == |b0.stats|
    ensures Vacated(b, At(b0.stats[ids[|ids| - 1]]))
  {
  }

  /** Nobody follows the stat, and no loose segment is beyond it to take on. */
  ghost predicate TailIsDone(b: BoardState, id: int)
    requires Valid(b) && 0 < id <= b.count
  {
    var s := b.stats[id];
    s.Follower == -1 && Adopted(b, s.X - s.StepX, s.Y - s.StepY, s.StepX, s.StepY) == -1
  }

  /** The branch of ElementCentipedeHeadTick in which the square ahead is free: all the
      centipede moves, until its tail finds no loose segment to take on. */
  method March(e: Engine, statId: int) returns (ghost ids: seq<int>)
    requires e.Ok() && InOrder(e.Value(), statId) && Adjacent(e.Value())
    requires OnBoard(e.Stats[statId].X, e.Stats[statId].Y) && Unit(e.Stats[statId].StepX, e.Stats[statId].StepY)
    requires Vacated(e.Value(), (e.Stats[statId].X + e.Stats[statId].StepX, e.Stats[statId].Y + e.Stats[statId].StepY))
    modifies e.Stats, e.Tiles
    ensures e.Ok() && OnMarch(old(e.Value()), e.Value(), ids)
    ensures |ids| > 0 && ids[0] == statId && Done(e.Value(), ids)
    ensures NoneLooseLeft(old(e.Value()), e.Value(), ids)
  {
    hide OnMarch, Marching, Trail, InOrder, SegmentsBacked, Follows, Adjacent, Vacated, TailIsDone, BoardSpec.Valid,
        NotYet, NoneLooseLeft, Done, Adopted;
    ghost var b0 := e.Value();
    InOrderFacts(b0, statId);
    assert e.Stats[statId] == b0.stats[statId];
    StepHead(e, statId, b0);
    var f := statId;
    ids := [statId];
    while f != -1
      invariant e.Ok() && |ids| > 0 && ids[0] == statId && OnMarch(b0, e.Value(), ids)
      invariant if f == -1 then Done(e.Value(), ids) else f == ids[|ids| - 1]
      decreases NotYet(b0.count, ids), f != -1
    {
      f := Advance(e, f, b0, e.Value(), ids);
      if f != -1 {
        NotYetShrinks(b0.count, ids, f);
        ids := ids + [f];
      }
    }
    NothingLeft(b0, e.Value(), ids);
  }

  /** The last that has marched has no loose segment behind or beside the square it left. */
  ghost predicate NoneLooseLeft(b0: BoardState, b: BoardState, ids: seq<int>) {
    && Valid(b0) && |ids| > 0 && 0 <= ids[|ids| - 1] < |b0.stats| == |b.stats|
    && var s, was := b.stats[ids[|ids| - 1]], b0.stats[ids[|ids| - 1]];
      FirstLoose(b0, ids, At(was), s.StepX, s.StepY, -1)
  }

  lemma NothingLeft(b0: BoardState, b: BoardState, ids: seq<int>)
    requires OnMarch(b0, b, ids) && Done(b, ids)
    ensures NoneLooseLeft(b0, b, ids)
  {
    hide OnTheWay, FirstLoose, Adopted;
    AdoptsFirstLoose(b0, b, ids);
  }

  lemma InOrderFacts(b: BoardState, h: int)
    requires InOrder(b, h)
    ensures 0 < h <= b.count < |b.stats|
  {
  }

  /** The stats that have not marched. */
  ghost function NotYet(count: int, ids: seq<int>): set<int> {
    set i | 0 < i <= count && i !in ids
  }

  lemma NotYetShrinks(count: int, ids: seq<int>, f: int)
    requires 0 < f <= count && f !in ids
    ensures NotYet(count, ids + [f]) < NotYet(count, ids)
  {
    assert f in NotYet(count, ids) && f !in NotYet(count, ids + [f]);
  }

  /** The tail is followed by nobody and takes on nobody. */
  ghost predicate Done(b: BoardState, ids: seq<int>) {
    Valid(b) && |ids| > 0 && 0 < ids[|ids| - 1] <= b.count && TailIsDone(b, ids[|ids| - 1])
  }

  lemma DoneNow(b: BoardState, ids: seq<int>)
    requires Valid(b) && |ids| > 0 && 0 < ids[|ids| - 1] <= b.count && TailIsDone(b, ids[|ids| - 1])
    ensures Done(b, ids)
  {
  }

  lemma HeadOnMarch(b: BoardState, h: int)
    requires InOrder(b, h) && Unit(b.stats[h].StepX, b.stats[h].StepY) && OnBoard(b.stats[h].X, b.stats[h].Y)
    requires Vacated(b, (b.stats[h].X + b.stats[h].StepX, b.stats[h].Y + b.stats[h].StepY))
    ensures OnMarch(b, MoveStat(b, h, b.stats[h].X + b.stats[h].StepX, b.stats[h].Y + b.stats[h].StepY), [h])
    ensures 0 < h <= b.count < |b.stats| && InGrid(b.stats[h].X + b.stats[h].StepX, b.stats[h].Y + b.stats[h].StepY)
    ensures forall i :: 0 <= i <= b.count ==> Follows(b, i)
  {
    hide Marching, Carried, SegmentsBacked, InOrder, MoveStat, InTurn, OnTheWay, OnMarch, Follows, Vacated, StatAt;
    HeadParts(b, h);
    var x, y := b.stats[h].X + b.stats[h].StepX, b.stats[h].Y + b.stats[h].StepY;
    HeadMoves(b, h);
    HeadCarries(b, h, x, y);
    FirstOnMarch(b, MoveStat(b, h, x, y), h);
  }

  lemma HeadParts(b: BoardState, h: int)
    requires InOrder(b, h)
    ensures Valid(b) && 0 < h <= b.count < |b.stats| && SegmentsBacked(b)
    ensures forall i :: 0 <= i <= b.count ==> Follows(b, i)
  {
  }

  lemma FirstOnMarch(b: BoardState, r: BoardState, h: int)
    requires Valid(b) && Valid(r) && SegmentsBacked(b) && Marching(b, r, [h]) && 0 < h <= b.count == r.count
    requires Carried(b, r, [h]) && h < |r.stats| && Vacated(b, At(r.stats[h]))
    ensures OnMarch(b, r, [h])
  {
    hide Marching, Carried, SegmentsBacked, Vacated;
  }

  method StepHead(e: Engine, h: int, ghost b: BoardState)
    requires e.Ok() && b == e.Value() && InOrder(b, h)
    requires OnBoard(b.stats[h].X, b.stats[h].Y) && Unit(b.stats[h].StepX, b.stats[h].StepY)
    requires Vacated(b, (b.stats[h].X + b.stats[h].StepX, b.stats[h].Y + b.stats[h].StepY))
    modifies e.Stats, e.Tiles
    ensures e.Ok() && OnMarch(b, e.Value(), [h]) && forall i :: 0 <= i <= b.count ==> Follows(b, i)
  {
    hide OnMarch, SegmentsBacked, Vacated, BoardSpec.MoveStat, InOrder, Follows;
    HeadOnMarch(b, h);
    var s := e.Stats[h];
    assert s == b.stats[h];
    e.MoveStat(h, s.X + s.StepX, s.Y + s.StepY);
  }

  lemma CanMoveFacts(b0: BoardState, b: BoardState, ids: seq<int>, f: int)
    requires Valid(b) && Valid(b0) && b.count == b0.count && |ids| > 0 && Members(ids, b.count)
      && CanMove(b0, b, ids, f)
    ensures 0 < f <= b.count && f != ids[|ids| - 1] && f !in ids
    ensures var at := At(b0.stats[ids[|ids| - 1]]); Unit(at.0 - b.stats[f].X, at.1 - b.stats[f].Y)
  {
  }

  /** A centipede that showed its head first and segments behind still does. */
  lemma MarchLooksTheSame(b0: BoardState, b: BoardState, ids: seq<int>)
    requires OnMarch(b0, b, ids) && LooksLike(b0.tiles, b0.stats, ids)
    ensures LooksLike(b.tiles, b.stats, ids)
  {
    hide *;
    forall k | 0 <= k < |ids|
      ensures 0 <= ids[k] < |b.stats| && ids[k] < |b0.stats| && Shows(b0, b, ids[k])
    {
      CarriedAt(b0, b, ids, k);
    }
    forall j, k | 0 <= j < k < |ids|
      ensures 0 <= ids[j] < |b.stats| && 0 <= ids[k] < |b.stats| && Place(b.stats, ids[j]) != Place(b.stats, ids[k])
    {
      PlacesDiffer(b0, b, ids, j, k);
    }
    LooksCarriedOver(b0, b, ids);
  }

  /** The stat shows the element it showed, wherever it stands now. */
  ghost predicate Shows(b0: BoardState, b: BoardState, id: int)
    requires 0 <= id < |b.stats| && id < |b0.stats|
  {
    var p, was := Place(b.stats, id), Place(b0.stats, id);
    p in b.tiles && was in b0.tiles && b.tiles[p].Element == b0.tiles[was].Element
  }

  lemma CarriedAt(b0: BoardState, b: BoardState, ids: seq<int>, k: nat)
    requires OnMarch(b0, b, ids) && k < |ids|
    ensures 0 <= ids[k] < |b.stats| == |b0.stats| && Shows(b0, b, ids[k])
  {
    assert (forall m :: 0 <= m < |ids| ==> 0 <= ids[m] <= b.count == b0.count) && Carried(b0, b, ids);
    hide OnTheWay, Elsewhere, InTurn;
    assert InGrid(b.stats[ids[k]].X, b.stats[ids[k]].Y) && InGrid(b0.stats[ids[k]].X, b0.stats[ids[k]].Y);
    assert Place(b.stats, ids[k]) == At(b.stats[ids[k]]) && Place(b0.stats, ids[k]) == At(b0.stats[ids[k]]);
  }

  lemma PlacesDiffer(b0: BoardState, b: BoardState, ids: seq<int>, j: nat, k: nat)
    requires OnMarch(b0, b, ids) && j < k < |ids|
    ensures 0 <= ids[j] < |b.stats| && 0 <= ids[k] < |b.stats| && Place(b.stats, ids[j]) != Place(b.stats, ids[k])
  {
    hide Carried, InTurn, StatAt, Vacated;
    assert OnePerSquare(b) && ids[j] != ids[k];
  }

  lemma LooksCarriedOver(b0: BoardState, b: BoardState, ids: seq<int>)
    requires LooksLike(b0.tiles, b0.stats, ids)
    requires forall k :: 0 <= k < |ids| ==> 0 <= ids[k] < |b.stats| && ids[k] < |b0.stats| && Shows(b0, b, ids[k])
    requires forall j, k :: 0 <= j < k < |ids| ==> Place(b.stats, ids[j]) != Place(b.stats, ids[k])
    ensures LooksLike(b.tiles, b.stats, ids)
  {
  }
}
