/** Where a player may be put (engine/placement.go): the open square nearest a given one. */
module Placement {
  import opened GameVars
  import B = BoardSpec
  import opened Game

  predicate At(stats: seq<TStat>, i: int, x: int, y: int)
    requires 0 <= i < |stats|
  {
    stats[i].X == x && stats[i].Y == y
  }

  /** Some stat other than `except` stands on the square. */
  ghost predicate HeldBut(b: B.BoardState, x: int, y: int, except: int)
    requires B.Valid(b)
  {
    exists i :: 0 <= i <= b.count && i != except && At(b.stats, i, x, y)
  }

  ghost predicate Open(b: B.BoardState, x: int, y: int, except: int)
    requires B.Valid(b)
  {
    OnBoard(x, y) && b.tiles[(x, y)].Element == E_EMPTY && !HeldBut(b, x, y, except)
  }

  function Abs(x: int): nat { if x < 0 then -x else x }

  /** The ring a square lies on, seen from a centre displaced by (dx, dy). */
  function Ring(dx: int, dy: int): nat {
    if Abs(dx) < Abs(dy) then Abs(dy) else Abs(dx)
  }

  /** Closer, or on the same ring and earlier in the scan, row by row. */
  predicate Sooner(dx: int, dy: int, ex: int, ey: int) {
    Ring(dx, dy) < Ring(ex, ey) || (Ring(dx, dy) == Ring(ex, ey) && (dy < ey || (dy == ey && dx < ex)))
  }

  /** The first stat on the square from index `from` on, `except` aside, or -1. */
  function FirstBut(stats: seq<TStat>, count: int, x: int, y: int, except: int, from: nat): (r: int)
    requires count < |stats|
    ensures r == -1 || (from <= r <= count && r != except && At(stats, r, x, y))
    ensures forall i :: from <= i <= count && i != except && (r == -1 || i < r) ==> !At(stats, i, x, y)
    decreases count - from
  {
    if from > count then -1
    else if from != except && At(stats, from, x, y) then from
    else FirstBut(stats, count, x, y, except, from + 1)
  }

  method StatAt(e: Engine, x: int, y: int, except: int) returns (id: int, held: bool)
    requires e.Ok()
    ensures var first := FirstBut(e.Stats[..], e.StatCount, x, y, except, 0);
      held == (first >= 0) && id == if held then first else 0
  {
    id := 0;
    while id <= e.StatCount
      invariant 0 <= id
      invariant FirstBut(e.Stats[..], e.StatCount, x, y, except, 0) ==
        FirstBut(e.Stats[..], e.StatCount, x, y, except, id)
    {
      if id != except && e.Stats[id].X == x && e.Stats[id].Y == y {
        return id, true;
      }
      id := id + 1;
    }
    return 0, false;
  }

  lemma HeldIsFound(b: B.BoardState, x: int, y: int, except: int)
    requires B.Valid(b)
    ensures HeldBut(b, x, y, except) <==> FirstBut(b.stats, b.count, x, y, except, 0) >= 0
  {
  }

  method PlacementOpen(e: Engine, x: int, y: int, except: int) returns (open: bool)
    requires e.Ok()
    ensures open == Open(e.Value(), x, y, except)
  {
    if x < 1 || x > BOARD_WIDTH || y < 1 || y > BOARD_HEIGHT {
      return false;
    }
    e.GridAt(x, y);
    if e.Tiles[x, y].Element != E_EMPTY {
      return false;
    }
    var _, held := StatAt(e, x, y, except);
    HeldIsFound(e.Value(), x, y, except);
    open := !held;
  }

  /** No square before (px, py), in the order of the search, is open. */
  ghost predicate NoneSooner(b: B.BoardState, x: int, y: int, except: int, px: int, py: int)
    requires B.Valid(b)
  {
    forall u, v :: Open(b, u, v, except) ==> !Sooner(u - x, v - y, px - x, py - y)
  }

  /** The open square that comes first: on the smallest ring that has one, the top row
      first, the leftmost first. None is found only if none lies within 60 rings. */
  method FindPlacement(e: Engine, x: int, y: int, except: int) returns (px: int, py: int, ok: bool)
    requires e.Ok()
    ensures ok ==> Open(e.Value(), px, py, except) && NoneSooner(e.Value(), x, y, except, px, py)
    ensures !ok ==> px == x && py == y && NoneWithin(e.Value(), x, y, except, BOARD_WIDTH)
  {
    ghost var b := e.Value();
    assert B.Valid(b);
    hide *;
    ok := PlacementOpen(e, x, y, except);
    if ok {
      NothingSooner(b, x, y, except);
      return x, y, true;
    }
    NoneHere(b, x, y, except);
    var radius := 1;
    while radius <= BOARD_WIDTH || radius <= BOARD_HEIGHT
      invariant 1 <= radius <= BOARD_WIDTH + 1 && NoneWithin(b, x, y, except, radius - 1)
      decreases BOARD_WIDTH + 1 - radius
    {
      px, py, ok := SearchRing(e, x, y, except, radius);
      if ok {
        return;
      }
      radius := radius + 1;
    }
    px, py, ok := x, y, false;
  }

  ghost predicate NoneWithin(b: B.BoardState, x: int, y: int, except: int, radius: int)
    requires B.Valid(b)
  {
    forall u, v :: Open(b, u, v, except) ==> Ring(u - x, v - y) > radius
  }

  /** One ring of the search. */
  method SearchRing(e: Engine, x: int, y: int, except: int, radius: int) returns (px: int, py: int, ok: bool)
    requires e.Ok() && radius >= 1 && NoneWithin(e.Value(), x, y, except, radius - 1)
    ensures ok ==> Open(e.Value(), px, py, except) && NoneSooner(e.Value(), x, y, except, px, py)
    ensures !ok ==> NoneWithin(e.Value(), x, y, except, radius)
  {
    ghost var b := e.Value();
    assert B.Valid(b);
    hide *;
    RingStarts(b, x, y, except, radius);
    var dy := -radius;
    while dy <= radius
      invariant -radius <= dy <= radius + 1
      invariant NoneBefore(b, x, y, except, radius, -radius, dy)
    {
      px, py, ok := SearchRow(e, b, x, y, except, radius, dy);
      if ok {
        return;
      }
      NextRow(b, x, y, except, radius, dy);
      dy := dy + 1;
    }
    RingDone(b, x, y, except, radius);
    px, py, ok := x, y, false;
  }

  /** One row of a ring. */
  method SearchRow(e: Engine, ghost b: B.BoardState, x: int, y: int, except: int, radius: int, dy: int)
    returns (px: int, py: int, ok: bool)
    requires e.Ok() && b == e.Value() && B.Valid(b)
    requires -radius <= dy <= radius && NoneBefore(b, x, y, except, radius, -radius, dy)
    ensures ok ==> Open(b, px, py, except) && NoneSooner(b, x, y, except, px, py)
    ensures !ok ==> NoneBefore(b, x, y, except, radius, radius + 1, dy)
  {
    hide *;
    var dx := -radius;
    while dx <= radius
      invariant -radius <= dx <= radius + 1
      invariant NoneBefore(b, x, y, except, radius, dx, dy)
    {
      var found := TrySquare(e, b, x, y, except, radius, dx, dy);
      if found {
        FoundSoonest(b, x, y, except, radius, dx, dy);
        return x + dx, y + dy, true;
      }
      NextSquare(b, x, y, except, radius, dx, dy);
      dx := dx + 1;
    }
    px, py, ok := x, y, false;
  }

  /** One square of a row: squares inside the ring are passed over. */
  method TrySquare(e: Engine, ghost b: B.BoardState, x: int, y: int, except: int, radius: int, dx: int, dy: int)
      returns (found: bool)
    requires e.Ok() && b == e.Value() && B.Valid(b) && -radius <= dx <= radius && -radius <= dy <= radius
    ensures found == (Ring(dx, dy) == radius && Open(b, x + dx, y + dy, except))
  {
    hide *;
    OnRing(dx, dy, radius);
    found := false;
    if Abs(dx) == radius || Abs(dy) == radius {
      found := PlacementOpen(e, x + dx, y + dy, except);
    }
  }

  lemma OnRing(dx: int, dy: int, radius: int)
    requires -radius <= dx <= radius && -radius <= dy <= radius
    ensures Ring(dx, dy) == radius <==> Abs(dx) == radius || Abs(dy) == radius
  {
  }

  /** Nothing open inside the ring, nor on it before (ex, ey) in reading order. */
  ghost predicate NoneBefore(b: B.BoardState, x: int, y: int, except: int, radius: int, ex: int, ey: int)
    requires B.Valid(b)
  {
    forall u, v :: Open(b, u, v, except) ==>
      Ring(u - x, v - y) > radius || (Ring(u - x, v - y) == radius && (v - y > ey || (v - y == ey && u - x >= ex)))
  }

  lemma NothingSooner(b: B.BoardState, x: int, y: int, except: int)
    requires B.Valid(b)
    ensures NoneSooner(b, x, y, except, x, y)
  {
  }

  lemma NoneHere(b: B.BoardState, x: int, y: int, except: int)
    requires B.Valid(b) && !Open(b, x, y, except)
    ensures NoneWithin(b, x, y, except, 0)
  {
  }

  lemma RingStarts(b: B.BoardState, x: int, y: int, except: int, radius: int)
    requires B.Valid(b) && radius >= 1 && NoneWithin(b, x, y, except, radius - 1)
    ensures NoneBefore(b, x, y, except, radius, -radius, -radius)
  {
  }

  lemma NextSquare(b: B.BoardState, x: int, y: int, except: int, radius: int, dx: int, dy: int)
    requires B.Valid(b) && NoneBefore(b, x, y, except, radius, dx, dy)
    requires Ring(dx, dy) == radius ==> !Open(b, x + dx, y + dy, except)
    ensures NoneBefore(b, x, y, except, radius, dx + 1, dy)
  {
    hide Open;
    forall u, v | Open(b, u, v, except)
      ensures Ring(u - x, v - y) > radius
        || (Ring(u - x, v - y) == radius && (v - y > dy || (v - y == dy && u - x >= dx + 1)))
    {
      assert u - x == dx && v - y == dy ==> u == x + dx && v == y + dy;
    }
  }

  lemma NextRow(b: B.BoardState, x: int, y: int, except: int, radius: int, dy: int)
    requires B.Valid(b) && NoneBefore(b, x, y, except, radius, radius + 1, dy)
    ensures NoneBefore(b, x, y, except, radius, -radius, dy + 1)
  {
    hide Open;
  }

  lemma RingDone(b: B.BoardState, x: int, y: int, except: int, radius: int)
    requires B.Valid(b) && NoneBefore(b, x, y, except, radius, -radius, radius + 1)
    ensures NoneWithin(b, x, y, except, radius)
  {
    hide Open;
  }

  lemma FoundSoonest(b: B.BoardState, x: int, y: int, except: int, radius: int, dx: int, dy: int)
    requires B.Valid(b) && NoneBefore(b, x, y, except, radius, dx, dy) && Ring(dx, dy) == radius
    ensures NoneSooner(b, x, y, except, x + dx, y + dy)
  {
    hide Open;
  }

  /** Every square of the board lies within 60 rings of any other, so from a square of
      the board the search fails exactly when the board has no open square. */
  lemma FailsOnlyOnAFullBoard(b: B.BoardState, x: int, y: int, except: int)
    requires B.Valid(b) && OnBoard(x, y)
    ensures NoneWithin(b, x, y, except, BOARD_WIDTH) <==> forall u, v :: !Open(b, u, v, except)
  {
    if NoneWithin(b, x, y, except, BOARD_WIDTH) {
      forall u, v | Open(b, u, v, except)
        ensures false
      {
      }
    }
  }

  /** The square found is nearest: no open square is on a smaller ring. */
  lemma SoonestIsNearest(b: B.BoardState, x: int, y: int, except: int, px: int, py: int, u: int, v: int)
    requires B.Valid(b) && NoneSooner(b, x, y, except, px, py) && Open(b, u, v, except)
    ensures Ring(px - x, py - y) <= Ring(u - x, v - y)
  {
    assert !Sooner(u - x, v - y, px - x, py - y);
  }
}
