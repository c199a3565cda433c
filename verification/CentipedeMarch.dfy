/** A centipede on the move (engine/elements.go, ElementCentipedeHeadTick): the head
    steps, every follower takes the square its leader held, and a tail that is
    followed by nobody takes on a loose segment beside it. */
module CentipedeMarch {
  import opened GameVars
  import opened BoardSpec
  import opened StatTable
  import opened Centipede
  import opened Game

  function At(s: TStat): Coord { (s.X as int, s.Y as int) }

  predicate Unit(dx: int, dy: int) {
    (dx == 0 && (dy == 1 || dy == -1)) || (dy == 0 && (dx == 1 || dx == -1))
  }

  ghost predicate Segment(b: BoardState, at: Coord)
    requires Valid(b)
  {
    at in b.tiles && b.tiles[at].Element == E_CENTIPEDE_SEGMENT
  }

  /** Who follows whom: every follower knows its leader and stands beside it. */
  ghost predicate Follows(b: BoardState, i: int)
    requires Valid(b) && 0 <= i <= b.count
  {
    var s := b.stats[i];
    s.Follower == -1 || (0 < s.Follower <= b.count && b.stats[s.Follower].Leader as int == i)
  }

  ghost predicate Beside(s: TStat, t: TStat) {
    Unit(s.X - t.X, s.Y - t.Y) && OnBoard(t.X, t.Y)
  }

  /** Every segment shown is a stat of its own, and no stat stands on one. */
  ghost predicate SegmentsBacked(b: BoardState)
    requires Valid(b)
  {
    && OnePerSquare(b)
    && (forall x, y :: Segment(b, (x, y)) ==> OnBoard(x, y) && StatAt(b, x, y) > 0)
    && forall i :: 0 <= i <= b.count ==> b.stats[i].Under.Element != E_CENTIPEDE_SEGMENT
  }

  /** What holds of the board before, between and after the moves of centipede h. */
  ghost predicate InOrder(b: BoardState, h: int) {
    && Valid(b) && 0 < h <= b.count && SegmentsBacked(b)
    && (forall i :: 0 <= i <= b.count ==> Follows(b, i) && b.stats[i].Follower as int != h)
    && b.tiles[At(b.stats[h])].Element == E_CENTIPEDE_HEAD
  }

  ghost predicate Adjacent(b: BoardState)
    requires Valid(b) && forall i :: 0 <= i <= b.count ==> Follows(b, i)
  {
    forall i :: 0 <= i <= b.count && b.stats[i].Follower > 0 ==>
      assert Follows(b, i); Beside(b.stats[i], b.stats[b.stats[i].Follower])
  }

  ghost predicate Vacated(b: BoardState, at: Coord)
    requires Valid(b)
  {
    OnBoard(at.0, at.1) && Unoccupied(b, at.0, at.1) && !Segment(b, at)
  }

  // ---- One move ----------------------------------------------------------

  /** A stat that steps onto a vacated square leaves a vacated square behind. */
  lemma MoveKeepsBacked(b: BoardState, id: int, x: int, y: int)
    requires Valid(b) && SegmentsBacked(b) && 0 <= id <= b.count && Vacated(b, (x, y))
    requires OnBoard(b.stats[id].X, b.stats[id].Y)
    requires id == 0 ==> b.tiles[At(b.stats[0])].Element != E_CENTIPEDE_SEGMENT
    ensures SegmentsBacked(MoveStat(b, id, x, y)) && Vacated(MoveStat(b, id, x, y), At(b.stats[id]))
  {
    var r := MoveStat(b, id, x, y);
    hide ArrivedTile, StatAt;
    assert OnePerSquare(r);
    forall px, py | Segment(r, (px, py))
      ensures OnBoard(px, py) && StatAt(r, px, py) > 0
    {
      if (px, py) == (x, y) {
        TheStatAt(r, id);
        MovedTile(b, id, x, y);
      } else {
        assert Segment(b, (px, py));
        var s := StatAt(b, px, py);
        IsAt(b, px, py);
        TheStatAt(r, s);
      }
    }
  }

  lemma MovedTile(b: BoardState, id: int, x: int, y: int)
    requires Valid(b) && 0 <= id <= b.count && Vacated(b, (x, y))
    ensures MoveStat(b, id, x, y).tiles[(x, y)].Element == b.tiles[At(b.stats[id])].Element
  {
  }

  lemma IsAt(b: BoardState, x: int, y: int)
    requires Valid(b) && StatAt(b, x, y) >= 0
    ensures StatAt(b, x, y) <= b.count && At(b.stats[StatAt(b, x, y)]) == (x, y)
  {
  }

  /** Writing links, steps and parameters does not move anything. */
  lemma RelinkKeepsBacked(b: BoardState, c: BoardState)
    requires Valid(b) && SegmentsBacked(b) && Valid(c) && c.tiles == b.tiles && c.count == b.count
    requires forall i :: 0 <= i <= b.count ==> At(c.stats[i]) == At(b.stats[i]) && c.stats[i].Under == b.stats[i].Under
    ensures SegmentsBacked(c)
  {
    hide StatAt;
    forall x, y | Segment(c, (x, y))
      ensures OnBoard(x, y) && StatAt(c, x, y) > 0
    {
      assert Segment(b, (x, y));
      IsAt(b, x, y);
      TheStatAt(c, StatAt(b, x, y));
    }
  }

  /** The follower's record as its leader's step leaves it, before it moves. */
  function Led(f: TStat, leader: TStat, leaderId: Int16, tx: int, ty: int): TStat
    requires Unit(tx - f.X, ty - f.Y)
  {
    f.(Leader := leaderId, P1 := leader.P1, P2 := leader.P2, StepX := tx - f.X, StepY := ty - f.Y)
  }

  /** One turn of the loop: the leader takes f as its follower, and f steps to (tx, ty). */
  ghost function Tow(b: BoardState, id: int, f: int, tx: int, ty: int): (r: BoardState)
    requires Valid(b) && 0 < id <= b.count && 0 < f <= b.count && id != f
    requires InGrid(tx, ty) && Unit(tx - b.stats[f].X, ty - b.stats[f].Y)
    ensures Valid(r) && r.count == b.count
  {
    MoveStat(Hooked(b, id, f, tx, ty), f, tx, ty)
  }

  ghost function Hooked(b: BoardState, id: int, f: int, tx: int, ty: int): (r: BoardState)
    requires Valid(b) && 0 < id <= b.count && 0 < f <= b.count && id != f
    requires InGrid(tx, ty) && Unit(tx - b.stats[f].X, ty - b.stats[f].Y)
    ensures Valid(r) && r.count == b.count
  {
    var leader := b.stats[id].(Follower := f);
    b.(stats := b.stats[id := leader][f := Led(b.stats[f], leader, id, tx, ty)])
  }

  /** f may be taken on: it follows id already, or it is loose and id's tail is free. */
  ghost predicate Towable(b: BoardState, id: int, f: int)
    requires Valid(b) && 0 < id <= b.count
  {
    && 0 < f <= b.count && f != id
    && (b.stats[id].Follower as int == f || (b.stats[id].Follower == -1 && b.stats[f].Leader < 0))
  }

  lemma TowKeepsOrder(b: BoardState, h: int, id: int, f: int, tx: int, ty: int)
    requires InOrder(b, h) && 0 < id <= b.count && Towable(b, id, f) && f != h && OnBoard(b.stats[f].X, b.stats[f].Y)
    requires Vacated(b, (tx, ty)) && Unit(tx - b.stats[f].X, ty - b.stats[f].Y)
    ensures InOrder(Tow(b, id, f, tx, ty), h) && Vacated(Tow(b, id, f, tx, ty), At(b.stats[f]))
  {
    TowKeepsBacked(b, id, f, tx, ty);
    assert OnePerSquare(b);
    hide Tow, SegmentsBacked;
    TowKeepsHead(b, h, id, f, tx, ty);
    TowKeepsLinks(b, h, id, f, tx, ty);
  }

  lemma TowKeepsBacked(b: BoardState, id: int, f: int, tx: int, ty: int)
    requires Valid(b) && SegmentsBacked(b) && 0 < id <= b.count && 0 < f <= b.count && id != f
    requires OnBoard(b.stats[f].X, b.stats[f].Y) && Vacated(b, (tx, ty)) && Unit(tx - b.stats[f].X, ty - b.stats[f].Y)
    ensures SegmentsBacked(Tow(b, id, f, tx, ty)) && Vacated(Tow(b, id, f, tx, ty), At(b.stats[f]))
  {
    var c := Hooked(b, id, f, tx, ty);
    RelinkKeepsBacked(b, c);
    assert Vacated(c, (tx, ty));
    hide SegmentsBacked, Vacated, Valid, MoveStat;
    MoveKeepsBacked(c, f, tx, ty);
  }

  lemma TowKeepsHead(b: BoardState, h: int, id: int, f: int, tx: int, ty: int)
    requires Valid(b) && OnePerSquare(b) && 0 < id <= b.count && 0 < f <= b.count && id != f
    requires 0 < h <= b.count && f != h && Vacated(b, (tx, ty)) && Unit(tx - b.stats[f].X, ty - b.stats[f].Y)
    ensures var r := Tow(b, id, f, tx, ty);
      At(r.stats[h]) == At(b.stats[h]) && r.tiles[At(r.stats[h])] == b.tiles[At(b.stats[h])]
  {
  }

  lemma TowedStats(b: BoardState, id: int, f: int, tx: int, ty: int, i: int)
    requires Valid(b) && 0 < id <= b.count && 0 < f <= b.count && id != f && 0 <= i < |b.stats|
    requires InGrid(tx, ty) && Unit(tx - b.stats[f].X, ty - b.stats[f].Y)
    ensures var r := Tow(b, id, f, tx, ty);
      r.stats[i] == if i == f
          then Led(b.stats[f], b.stats[id], id, tx, ty).(X := tx, Y := ty, Under := b.tiles[(tx, ty)])
                    else if i == id then b.stats[id].(Follower := f) else b.stats[i]
  {
  }

  lemma TowKeepsLinks(b: BoardState, h: int, id: int, f: int, tx: int, ty: int)
    requires Valid(b) && 0 < id <= b.count && Towable(b, id, f) && f != h
    requires forall i :: 0 <= i <= b.count ==> Follows(b, i) && b.stats[i].Follower as int != h
    requires InGrid(tx, ty) && Unit(tx - b.stats[f].X, ty - b.stats[f].Y)
    ensures var r := Tow(b, id, f, tx, ty);
      forall i :: 0 <= i <= r.count ==> Follows(r, i) && r.stats[i].Follower as int != h
  {
    hide Tow;
    var r := Tow(b, id, f, tx, ty);
    TowedStats(b, id, f, tx, ty, f);
    forall i | 0 <= i <= r.count
      ensures Follows(r, i) && r.stats[i].Follower as int != h
    {
      TowedStats(b, id, f, tx, ty, i);
      assert Follows(b, i);
      if r.stats[i].Follower > 0 {
        TowedStats(b, id, f, tx, ty, r.stats[i].Follower);
      }
    }
  }

  // ---- The march ---------------------------------------------------------

  /** Nothing but place, ground, step, links and temper of a member changes. */
  predicate SameSelf(s: TStat, t: TStat) {
    s == t.(X := s.X, Y := s.Y, Under := s.Under, StepX := s.StepX, StepY := s.StepY,
            Follower := s.Follower, Leader := s.Leader, P1 := s.P1, P2 := s.P2)
  }

  /** The k-th member has moved: the head by its own step, a follower onto the square
      its leader held before, taking its leader's temper and knowing its leader. */
  ghost predicate Marched(b0: BoardState, b: BoardState, ids: seq<int>, k: int)
    requires |b.stats| == |b0.stats| && 0 <= k < |ids| && forall m :: 0 <= m < |ids| ==> 0 < ids[m] < |b.stats|
  {
    var s, s0 := b.stats[ids[k]], b0.stats[ids[k]];
    && SameSelf(s, s0) && Unit(s.StepX, s.StepY)
    && s.X == s0.X + s.StepX && s.Y == s0.Y + s.StepY
    && s.P1 == b0.stats[ids[0]].P1 && s.P2 == b0.stats[ids[0]].P2
    && (k == 0 ==> s.StepX == s0.StepX && s.StepY == s0.StepY && s.Leader == s0.Leader)
    && (k > 0 ==> At(s) == At(b0.stats[ids[k - 1]]) && s.Leader as int == ids[k - 1])
  }

  /** The k-th member's follower is the next one, and it was before, or the next one
      was loose and this one followed by nobody. */
  ghost predicate Hitched(b0: BoardState, b: BoardState, ids: seq<int>, k: int)
    requires |b.stats| == |b0.stats| && 0 <= k < |ids| - 1 && forall m :: 0 <= m < |ids| ==> 0 < ids[m] < |b.stats|
  {
    var f, next := b0.stats[ids[k]].Follower, ids[k + 1];
    && b.stats[ids[k]].Follower as int == next
    && (f as int == next || (f == -1 && b0.stats[next].Leader < 0))
  }

  /** The march has come as far as the last of `ids`. */
  ghost predicate Trail(b0: BoardState, b: BoardState, ids: seq<int>) {
    && Valid(b0) && Valid(b) && b.count == b0.count
    && |ids| > 0 && Distinct(ids) && Members(ids, b.count)
    && (forall k {:trigger Marched(b0, b, ids, k)} :: 0 <= k < |ids| ==> Marched(b0, b, ids, k))
    && (forall k {:trigger Hitched(b0, b, ids, k)} :: 0 <= k < |ids| - 1 ==> Hitched(b0, b, ids, k))
    && b.stats[ids[|ids| - 1]].Follower == b0.stats[ids[|ids| - 1]].Follower
    && forall i :: 0 <= i < |b.stats| && i !in ids ==> b.stats[i] == b0.stats[i]
  }

  /** Whatever may be taken on next has not marched yet. */
  lemma NextIsNew(b0: BoardState, b: BoardState, ids: seq<int>, f: int)
    requires Trail(b0, b, ids) && InOrder(b, ids[0])
    requires var id := ids[|ids| - 1];
      b.stats[id].Follower as int == f > 0 || (0 <= f <= b.count && b.stats[f].Leader < 0 && f != ids[0])
    ensures f !in ids
  {
    assert Follows(b, ids[|ids| - 1]);
    forall k | 0 <= k < |ids|
      ensures ids[k] != f
    {
      assert Marched(b0, b, ids, k);
      assert k > 0 ==> b.stats[ids[k]].Leader as int == ids[k - 1];
    }
  }

  lemma TrailGrows(b0: BoardState, b: BoardState, ids: seq<int>, f: int, tx: int, ty: int)
    requires Trail(b0, b, ids) && Towable(b, ids[|ids| - 1], f) && f !in ids
    requires (tx, ty) == At(b0.stats[ids[|ids| - 1]]) && Unit(tx - b.stats[f].X, ty - b.stats[f].Y)
    ensures Trail(b0, Tow(b, ids[|ids| - 1], f, tx, ty), ids + [f])
  {
    hide Tow, Marched, Hitched, Led;
    var id, r := ids[|ids| - 1], Tow(b, ids[|ids| - 1], f, tx, ty);
    forall i | 0 <= i < |b.stats|
      ensures r.stats[i] == if i == f
        then Led(b.stats[f], b.stats[id], id, tx, ty).(X := tx, Y := ty, Under := b.tiles[(tx, ty)])
                            else if i == id then b.stats[id].(Follower := f) else b.stats[i]
    {
      TowedStats(b, id, f, tx, ty, i);
    }
    assert |r.stats| == |b.stats| == |b0.stats| && f < |b.stats|;
    TrailLonger(b0, b, r, ids, f, tx, ty);
  }

  lemma TrailLonger(b0: BoardState, b: BoardState, r: BoardState, ids: seq<int>, f: int, tx: int, ty: int)
    requires Trail(b0, b, ids) && Towable(b, ids[|ids| - 1], f) && f !in ids
    requires (tx, ty) == At(b0.stats[ids[|ids| - 1]]) && Unit(tx - b.stats[f].X, ty - b.stats[f].Y)
    requires Valid(r) && r.count == b.count && |r.stats| == |b.stats| == |b0.stats| && (tx, ty) in b.tiles
    requires var id := ids[|ids| - 1];
      && r.stats[f] == Led(b.stats[f], b.stats[id], id, tx, ty).(X := tx, Y := ty, Under := b.tiles[(tx, ty)])
      && r.stats[id] == b.stats[id].(Follower := f)
      && forall i :: 0 <= i < |b.stats| && i != f && i != id ==> r.stats[i] == b.stats[i]
    ensures Trail(b0, r, ids + [f])
  {
    var jds := ids + [f];
    assert b.count <= MAX_STAT < |b.stats|;
    LongerMarched(b0, b, r, ids, f, tx, ty);
    LongerHitched(b0, b, r, ids, f);
    hide Marched, Hitched, Led, Valid;
    assert Distinct(jds) && Members(jds, b.count);
    LedKeepsFollower(b.stats[f], b.stats[ids[|ids| - 1]], ids[|ids| - 1], tx, ty);
    assert jds[|jds| - 1] == f;
  }

  lemma LongerMarched(b0: BoardState, b: BoardState, r: BoardState, ids: seq<int>, f: int, tx: int, ty: int)
    requires Trail(b0, b, ids) && Towable(b, ids[|ids| - 1], f) && f !in ids
    requires (tx, ty) == At(b0.stats[ids[|ids| - 1]]) && Unit(tx - b.stats[f].X, ty - b.stats[f].Y)
    requires |r.stats| == |b.stats| == |b0.stats| && b.count <= MAX_STAT < |b.stats| && (tx, ty) in b.tiles
    requires var id := ids[|ids| - 1];
      && r.stats[f] == Led(b.stats[f], b.stats[id], id, tx, ty).(X := tx, Y := ty, Under := b.tiles[(tx, ty)])
      && r.stats[id] == b.stats[id].(Follower := f)
      && forall i :: 0 <= i < |b.stats| && i != f && i != id ==> r.stats[i] == b.stats[i]
    ensures forall k {:trigger Marched(b0, r, ids + [f], k)} :: 0 <= k < |ids| + 1 ==> Marched(b0, r, ids + [f], k)
  {
    hide Marched, Hitched, Led, Valid, Distinct;
    forall k | 0 <= k < |ids| + 1
      ensures Marched(b0, r, ids + [f], k)
    {
      if k < |ids| {
        assert Marched(b0, b, ids, k);
        MarchedStays(b0, b, r, ids, f, k);
      } else {
        assert Marched(b0, b, ids, |ids| - 1);
        LastMarched(b0, b, r, ids, f, tx, ty);
      }
    }
  }

  lemma LongerHitched(b0: BoardState, b: BoardState, r: BoardState, ids: seq<int>, f: int)
    requires Trail(b0, b, ids) && Towable(b, ids[|ids| - 1], f) && f !in ids
    requires |r.stats| == |b.stats| == |b0.stats| && b.count <= MAX_STAT < |b.stats|
    requires var id := ids[|ids| - 1];
      && r.stats[id] == b.stats[id].(Follower := f)
      && forall i :: 0 <= i < |b.stats| && i != f && i != id ==> r.stats[i] == b.stats[i]
    ensures forall k {:trigger Hitched(b0, r, ids + [f], k)} :: 0 <= k < |ids| ==> Hitched(b0, r, ids + [f], k)
  {
    hide Marched, Hitched, Valid;
    forall k | 0 <= k < |ids|
      ensures Hitched(b0, r, ids + [f], k)
    {
      HitchedStays(b0, b, r, ids, f, k);
    }
  }

  lemma LedKeepsFollower(f: TStat, leader: TStat, id: Int16, tx: int, ty: int)
    requires Unit(tx - f.X, ty - f.Y)
    ensures Led(f, leader, id, tx, ty).Follower == f.Follower
  {
  }

  lemma MarchedStays(b0: BoardState, b: BoardState, r: BoardState, ids: seq<int>, f: int, k: nat)
    requires |b.stats| == |b0.stats| == |r.stats| && 0 < f < |b.stats| && k < |ids|
    requires forall m :: 0 <= m < |ids| ==> 0 < ids[m] < |b.stats|
    requires Marched(b0, b, ids, k) && r.stats[ids[k]] == b.stats[ids[k]].(Follower := r.stats[ids[k]].Follower)
    ensures Marched(b0, r, ids + [f], k)
  {
  }

  lemma LastMarched(b0: BoardState, b: BoardState, r: BoardState, ids: seq<int>, f: int, tx: int, ty: int)
    requires |b.stats| == |b0.stats| == |r.stats| && 0 < f < |b.stats| && |ids| > 0
    requires forall m :: 0 <= m < |ids| ==> 0 < ids[m] < |b.stats|
    requires b.stats[f] == b0.stats[f] && Marched(b0, b, ids, |ids| - 1)
    requires var id := ids[|ids| - 1];
      && (tx, ty) == At(b0.stats[id]) && Unit(tx - b.stats[f].X, ty - b.stats[f].Y) && id <= MAX_STAT
      && r.stats[f] == Led(b.stats[f], b.stats[id], id, tx, ty).(X := tx, Y := ty, Under := r.stats[f].Under)
    ensures Marched(b0, r, ids + [f], |ids|)
  {
  }

  lemma HitchedStays(b0: BoardState, b: BoardState, r: BoardState, ids: seq<int>, f: int, k: nat)
    requires Trail(b0, b, ids) && Towable(b, ids[|ids| - 1], f) && f !in ids && |r.stats| == |b.stats| && k < |ids|
    requires k < |ids| - 1 ==> r.stats[ids[k]] == b.stats[ids[k]]
    requires k == |ids| - 1 ==> r.stats[ids[k]].Follower as int == f
    ensures Hitched(b0, r, ids + [f], k)
  {
    if k < |ids| - 1 {
      assert Hitched(b0, b, ids, k);
    }
  }

  /** On a chain that was well formed before, the march goes from its head through
      all its members in order, each onto its leader's old square, and every link
      inside the chain is as it was; any member beyond was loose and is taken on. */
  lemma {:induction false} MarchFollowsChain(b0: BoardState, b: BoardState, ids: seq<int>, chain: seq<int>, k: nat)
    requires Trail(b0, b, ids) && b.stats[ids[|ids| - 1]].Follower == -1
    requires Chain(b0.stats, b0.count, chain) && chain[0] == ids[0] && k < |chain|
    ensures k < |ids| && ids[k] == chain[k]
    ensures k > 0 ==> At(b.stats[chain[k]]) == At(b0.stats[chain[k - 1]])
    ensures k + 1 < |chain| ==> b.stats[chain[k]].Follower == b0.stats[chain[k]].Follower
    ensures k > 0 ==> b.stats[chain[k]].Leader == b0.stats[chain[k]].Leader
    ensures var s, was := b.stats[chain[k]], b0.stats[chain[k]]; var head := b0.stats[chain[0]];
      && s.P1 == head.P1 && s.P2 == head.P2 && s.X - was.X == s.StepX && s.Y - was.Y == s.StepY
      && s.P3 == was.P3 && s.Cycle == was.Cycle && s.Data == was.Data
  {
    if k > 0 {
      MarchFollowsChain(b0, b, ids, chain, k - 1);
      assert LinkedAt(b0.stats, chain, k - 1);
      if k == |ids| {
        assert false;
      }
      assert Hitched(b0, b, ids, k - 1);
    }
    assert LinkedAt(b0.stats, chain, k);
    assert Marched(b0, b, ids, k);
    if k + 1 < |chain| {
      if k + 1 == |ids| {
        assert false;
      }
      assert Hitched(b0, b, ids, k);
    }
  }
}
