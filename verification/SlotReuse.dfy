/** What ElementTransporterMove does when the push it makes removes a stat: it reads
    its slot of the stat table again after the search, and the removal may have put
    another stat there. Exactly when, and what the board comes to then. */
module SlotReuse {
  import opened GameVars
  import opened BoardSpec
  import opened PushSpec
  import opened PushMeaning
  import opened PushSafety
  import opened StatTable
  import opened TransportMeaning

  /** After a removal a slot still holds the same square's stat exactly when the
      removed stat came later in the table, or the slot was the last one. */
  lemma SlotSurvivesRemoval(b: BoardState, slot: int, gone: int)
    requires Valid(b) && OnePerSquare(b) && 0 <= slot <= b.count && 0 <= gone <= b.count && slot != gone
    ensures var s := RemoveStat(b, gone).stats[slot];
      (s.X == b.stats[slot].X && s.Y == b.stats[slot].Y) <==> gone > slot || slot == b.count
  {
    hide RemoveStat;
    SlotAfterRemoval(b, slot, gone);
  }

  predicate SameSquare(s: TStat, t: TStat) { s.X == t.X && s.Y == t.Y }

  /** Which stat's place a slot has after a removal. */
  lemma SlotAfterRemoval(b: BoardState, slot: int, gone: int)
    requires Valid(b) && 0 <= slot <= b.count && 0 <= gone <= b.count && slot != gone
    ensures SameSquare(RemoveStat(b, gone).stats[slot], b.stats[if gone < slot < b.count then slot + 1 else slot])
  {
    hide RemoveStat;
    if gone < slot < b.count {
      SurvivorSlot(b, gone, slot + 1);
    } else if gone > slot {
      SurvivorSlot(b, gone, slot);
    } else {
      LastSlotIsStale(b, gone);
    }
  }

  lemma LastSlotIsStale(b: BoardState, gone: int)
    requires Valid(b) && 0 <= gone < b.count
    ensures RemoveStat(b, gone).stats[b.count] == Relinked(b.stats[b.count], gone)
  {
  }

  // ---- Any transporter, any push -----------------------------------------

  /** The stat a push that reaches n squares ahead of (ex, ey) crushes, -1 for none. */
  ghost function CrushedStat(b: BoardState, ex: int, ey: int, dx: int, dy: int, n: nat): (g: int)
    requires Valid(b)
    ensures -1 <= g <= b.count
  {
    var p := Square(ex, ey, dx, dy, n);
    if n > 0 && InGrid(p.0, p.1) && Crushable(Element(b, p.0, p.1)) then StatAt(b, p.0, p.1) else -1
  }

  /** The removal of stat g puts the next stat into slot s. */
  predicate Refilled(b: BoardState, s: int, g: int) { 0 <= g < s < b.count }

  /** Where stat i stands once a push from (ex, ey) has moved n squares up. */
  function PlaceAfter(b: BoardState, ex: int, ey: int, dx: int, dy: int, n: nat, i: int): Coord
    requires 0 <= i < |b.stats|
  {
    var s := b.stats[i];
    if 0 <= Dist(ex, ey, dx, dy, s.X, s.Y) < n then (s.X + dx, s.Y + dy) else (s.X as int, s.Y as int)
  }

  lemma OpenedStats(b: BoardState, ex: int, ey: int, dx: int, dy: int, n: nat)
    requires Valid(b)
    ensures var g, o := CrushedStat(b, ex, ey, dx, dy, n), Opened(b, ex, ey, dx, dy, n);
      && o.stats == (if g >= 0 then RemoveStat(b, g).stats else b.stats)
      && o.count == (if g >= 0 then b.count - 1 else b.count)
  {
    hide RemoveStat;
    if CrushedStat(b, ex, ey, dx, dy, n) >= 0 {
      assert RemoveStat(b, CrushedStat(b, ex, ey, dx, dy, n)).count == b.count - 1;
    }
  }

  lemma OpenedSlot(b: BoardState, ex: int, ey: int, dx: int, dy: int, n: nat, s: int)
    requires Valid(b) && UnitStep(dx, dy) && 0 <= s <= b.count
    requires Dist(ex, ey, dx, dy, b.stats[s].X, b.stats[s].Y) == -1
    ensures var g, o := CrushedStat(b, ex, ey, dx, dy, n), Opened(b, ex, ey, dx, dy, n);
      && SameSquare(o.stats[s], b.stats[if Refilled(b, s, g) then s + 1 else s])
      && (Refilled(b, s, g) ==> s <= o.count)
  {
    OpenedStats(b, ex, ey, dx, dy, n);
    NotBehind(b, ex, ey, dx, dy, n, s);
    hide Dist, RemoveStat, Opened, CrushedStat, UnitStep;
    var g := CrushedStat(b, ex, ey, dx, dy, n);
    if g >= 0 {
      SlotAfterRemoval(b, s, g);
    }
  }

  /** The slot of a stat behind the push holds that stat's place afterwards, unless it
      has been refilled: then it holds the place of the next stat. */
  lemma SlotAfterPush(b: BoardState, c: BoardState, ex: int, ey: int, dx: int, dy: int, n: nat, s: int)
    requires Valid(b) && UnitStep(dx, dy) && 0 <= s <= b.count && n > 0
    requires Dist(ex, ey, dx, dy, b.stats[s].X, b.stats[s].Y) == -1
    requires ShiftedBy(Opened(b, ex, ey, dx, dy, n), c, ex, ey, dx, dy, n)
    ensures |c.stats| == STAT_SLOTS
    ensures var g := CrushedStat(b, ex, ey, dx, dy, n);
      (c.stats[s].X as int, c.stats[s].Y as int) ==
        if Refilled(b, s, g) then PlaceAfter(b, ex, ey, dx, dy, n, s + 1)
            else (b.stats[s].X as int, b.stats[s].Y as int)
  {
    hide Dist, Floor, Opened, CrushedStat, ShiftedBy, UnitStep, Refilled;
    OpenedSlot(b, ex, ey, dx, dy, n, s);
    StatOfShift(Opened(b, ex, ey, dx, dy, n), c, ex, ey, dx, dy, n, s);
    NextIsLive(b, s, CrushedStat(b, ex, ey, dx, dy, n));
  }

  lemma NextIsLive(b: BoardState, s: int, g: int)
    ensures Refilled(b, s, g) ==> s + 1 <= b.count
  {
  }

  lemma NotBehind(b: BoardState, ex: int, ey: int, dx: int, dy: int, n: nat, s: int)
    requires Valid(b) && UnitStep(dx, dy) && 0 <= s <= b.count
    requires Dist(ex, ey, dx, dy, b.stats[s].X, b.stats[s].Y) == -1
    ensures CrushedStat(b, ex, ey, dx, dy, n) != s
  {
    if CrushedStat(b, ex, ey, dx, dy, n) >= 0 {
      var p := Square(ex, ey, dx, dy, n);
      WhoStandsThere(b, p.0, p.1);
    }
  }

  /** A stat never comes to stand behind the push. */
  lemma NobodyFallsBack(b: BoardState, ex: int, ey: int, dx: int, dy: int, n: nat, i: int, px: int, py: int)
    requires UnitStep(dx, dy) && 0 <= i < |b.stats| && !StandsOn(b, i, px, py)
    requires Dist(ex, ey, dx, dy, px, py) == -1
    ensures PlaceAfter(b, ex, ey, dx, dy, n, i) != (px, py)
  {
    Near(ex, ey, dx, dy, b.stats[i].X, b.stats[i].Y);
  }

  /** A transporter facing along the step, seen from (x, y). */
  ghost predicate Carrying(b: BoardState, x: int, y: int, dx: int, dy: int)
  {
    && Valid(b) && UnitStep(dx, dy) && InGrid(x, y) && InGrid(x + dx, y + dy) && OneOn(b, x + dx, y + dy)
    && AllTryable(b, x + dx, y + dy, dx, dy, true) && !Search(b, x + dx, y + dy, dx, dy, true).SearchPanic?
    && var s := StatAt(b, x + dx, y + dy);
      s >= 0 && b.stats[s].StepX == dx && b.stats[s].StepY == dy
  }

  /** What the transporter moves: what stands before the place its slot now holds. */
  ghost function Source(b: BoardState, c: BoardState, x: int, y: int, dx: int, dy: int): Coord
    requires Valid(b) && Valid(c)
  {
    var s := StatAt(b, x + dx, y + dy);
    if s >= 0 then (c.stats[s].X - dx, c.stats[s].Y - dy) else (x, y)
  }

  lemma TransportMovesSource(b: BoardState, x: int, y: int, dx: int, dy: int) returns (k: nat)
    requires Carrying(b, x, y, dx, dy)
    ensures FirstExit(b, x + dx, y + dy, dx, dy, true, k)
    ensures k == 0 ==> Transport(b, x, y, dx, dy) == Done(b)
    ensures k > 0 ==> var at := Square(x + dx, y + dy, dx, dy, k);
      InGrid(at.0, at.1) && var t := Tried(b, at.0, at.1, dx, dy, true);
      t.Done? && var src := Source(b, t.board, x, y, dx, dy);
      Transport(b, x, y, dx, dy) == ElementMove(t.board, src.0, src.1, at.0, at.1)
  {
    hide Search, ElementMove, Tried, Valid, FirstExit, Square;
    StandsThere(b, x + dx, y + dy);
    k := SearchFindsFirstExit(b, x + dx, y + dy, dx, dy, true);
  }

  /** The board after a try of (ex, ey): a push that reaches n squares, none if it is open. */
  ghost predicate TriedAs(b: BoardState, ex: int, ey: int, dx: int, dy: int, n: nat)
    requires Valid(b) && UnitStep(dx, dy) && InGrid(ex, ey)
  {
    var t := Tried(b, ex, ey, dx, dy, true);
    && t.Done?
    && (n == 0 <==> Walkable(Element(b, ex, ey)))
    && (if n == 0 then t.board == b
        else Furthest(b, ex, ey, dx, dy, n) && ShiftedBy(Opened(b, ex, ey, dx, dy, n), t.board, ex, ey, dx, dy, n))
  }

  lemma HowTried(b: BoardState, ex: int, ey: int, dx: int, dy: int) returns (n: nat)
    requires Valid(b) && UnitStep(dx, dy) && InGrid(ex, ey) && Opens(b, ex, ey, dx, dy)
    requires Walkable(Element(b, ex, ey)) || Clear(b, ex, ey, dx, dy)
    ensures TriedAs(b, ex, ey, dx, dy, n)
  {
    n := 0;
    if !Walkable(Element(b, ex, ey)) {
      CellHere(b, ex, ey, dx, dy);
      hide Clear, Valid, Push, Furthest, Cell, ShiftedBy, Opened;
      n := PushShifts(b, ex, ey, dx, dy);
      if n == 0 {
        NotBoth(b, ex, ey, dx, dy);
        assert false;
      }
    }
  }

  lemma AheadOf(x: int, y: int, dx: int, dy: int, k: nat)
    requires UnitStep(dx, dy) && k > 0
    ensures var at := Square(x, y, dx, dy, k); Dist(at.0, at.1, dx, dy, x, y) == -1
  {
  }

  /** The square the transporter of slot s carries from, when the push at its exit
      (ex, ey) reaches n squares and crushes stat g: the one before it, or the one
      before the next stat of the table when its slot has been refilled. */
  function CarriedFrom(b: BoardState, s: int, g: int, x: int, y: int, dx: int, dy: int, ex: int, ey: int, n: nat): Coord
    requires 0 <= s <= b.count < |b.stats|
  {
    if Refilled(b, s, g) then
      var p := PlaceAfter(b, ex, ey, dx, dy, n, s + 1);
      (p.0 - dx, p.1 - dy)
    else (x, y)
  }

  /** It carries what stands before it exactly when its slot is not refilled. */
  lemma CarriesItsOwn(b: BoardState, s: int, g: int, x: int, y: int, dx: int, dy: int, ex: int, ey: int, n: nat)
    requires Valid(b) && UnitStep(dx, dy) && OneOn(b, x + dx, y + dy)
    requires 0 <= s <= b.count && StandsOn(b, s, x + dx, y + dy) && Dist(ex, ey, dx, dy, x + dx, y + dy) == -1
    ensures CarriedFrom(b, s, g, x, y, dx, dy, ex, ey, n) == (x, y) <==> g < 0 || g >= s || s == b.count
  {
    assert s < b.count ==> !StandsOn(b, s + 1, x + dx, y + dy);
    hide Dist, PlaceAfter, Valid, OneOn, UnitStep, StandsOn;
    if Refilled(b, s, g) {
      NobodyFallsBack(b, ex, ey, dx, dy, n, s + 1, x + dx, y + dy);
    }
  }

  lemma SourceIs(b: BoardState, c: BoardState, s: int, x: int, y: int, dx: int, dy: int, ex: int, ey: int, n: nat)
    requires Valid(b) && Valid(c) && UnitStep(dx, dy)
    requires 0 <= s <= b.count && StandsOn(b, s, x + dx, y + dy) && Dist(ex, ey, dx, dy, x + dx, y + dy) == -1
    requires if n == 0 then c == b else ShiftedBy(Opened(b, ex, ey, dx, dy, n), c, ex, ey, dx, dy, n)
    ensures (c.stats[s].X - dx, c.stats[s].Y - dy) ==
            CarriedFrom(b, s, CrushedStat(b, ex, ey, dx, dy, n), x, y, dx, dy, ex, ey, n)
  {
    hide ShiftedBy, Opened, Dist, PlaceAfter, Valid, UnitStep, CrushedStat;
    if n > 0 {
      SlotAfterPush(b, c, ex, ey, dx, dy, n, s);
    } else {
      NothingCrushed(b, ex, ey, dx, dy);
    }
  }

  lemma NothingCrushed(b: BoardState, ex: int, ey: int, dx: int, dy: int)
    requires Valid(b)
    ensures CrushedStat(b, ex, ey, dx, dy, 0) == -1
  {
  }

  lemma SlotStands(b: BoardState, x: int, y: int, dx: int, dy: int)
    requires Carrying(b, x, y, dx, dy)
    ensures var s := StatAt(b, x + dx, y + dy); 0 <= s <= b.count && StandsOn(b, s, x + dx, y + dy)
  {
    WhoStandsThere(b, x + dx, y + dy);
  }

  lemma TriedLeaves(b: BoardState, ex: int, ey: int, dx: int, dy: int, n: nat)
    requires Valid(b) && UnitStep(dx, dy) && InGrid(ex, ey) && TriedAs(b, ex, ey, dx, dy, n)
    ensures var t := Tried(b, ex, ey, dx, dy, true);
      && t.Done? && Valid(t.board)
      && if n == 0 then t.board == b else ShiftedBy(Opened(b, ex, ey, dx, dy, n), t.board, ex, ey, dx, dy, n)
  {
    hide ShiftedBy, Opened, Furthest, Tried;
  }

  lemma SourceAtExit(b: BoardState, x: int, y: int, dx: int, dy: int, k: nat, at: Coord, n: nat)
    requires Carrying(b, x, y, dx, dy) && k > 0 && at == Square(x + dx, y + dy, dx, dy, k)
    requires InGrid(at.0, at.1) && TriedAs(b, at.0, at.1, dx, dy, n)
    ensures var s, t := StatAt(b, x + dx, y + dy), Tried(b, at.0, at.1, dx, dy, true);
      && 0 <= s <= b.count && t.Done?
      && Source(b, t.board, x, y, dx, dy) ==
         CarriedFrom(b, s, CrushedStat(b, at.0, at.1, dx, dy, n), x, y, dx, dy, at.0, at.1, n)
  {
    hide Search, Tried, TriedAs, Square, StatAt, Dist, AllTryable, CarriedFrom, ShiftedBy, Opened, CrushedStat,
        StandsOn;
    hide OneOn, UnitStep;
    SlotStands(b, x, y, dx, dy);
    AheadOf(x + dx, y + dy, dx, dy, k);
    TriedLeaves(b, at.0, at.1, dx, dy, n);
    SourceIs(b, Tried(b, at.0, at.1, dx, dy, true).board, StatAt(b, x + dx, y + dy), x, y, dx, dy, at.0, at.1, n);
  }

  /** What a transporter does: nothing without an exit; otherwise it opens the first
      exit and moves there what stands on the square it carries from. */
  lemma TransportCarries(b: BoardState, x: int, y: int, dx: int, dy: int) returns (k: nat, n: nat)
    requires Carrying(b, x, y, dx, dy)
    ensures FirstExit(b, x + dx, y + dy, dx, dy, true, k)
    ensures k == 0 ==> Transport(b, x, y, dx, dy) == Done(b)
    ensures k > 0 ==>
      var at, s := Square(x + dx, y + dy, dx, dy, k), StatAt(b, x + dx, y + dy);
      && InGrid(at.0, at.1) && TriedAs(b, at.0, at.1, dx, dy, n) && 0 <= s <= b.count
      && var src := CarriedFrom(b, s, CrushedStat(b, at.0, at.1, dx, dy, n), x, y, dx, dy, at.0, at.1, n);
        Transport(b, x, y, dx, dy) ==
        ElementMove(Tried(b, at.0, at.1, dx, dy, true).board, src.0, src.1, at.0, at.1)
  {
    hide Search, Transport, ElementMove, Tried, TriedAs, FirstExit, Square, StatAt, Opens, Clear, AllTryable;
    hide CarriedFrom, CrushedStat, Source;
    k := TransportMovesSource(b, x, y, dx, dy);
    n := 0;
    if k > 0 {
      var at := Square(x + dx, y + dy, dx, dy, k);
      ExitIsTryable(b, x + dx, y + dy, dx, dy, k);
      n := HowTried(b, at.0, at.1, dx, dy);
      SourceAtExit(b, x, y, dx, dy, k, at, n);
    }
  }

  lemma ExitIsTryable(b: BoardState, x: int, y: int, dx: int, dy: int, k: nat)
    requires Valid(b) && UnitStep(dx, dy) && AllTryable(b, x, y, dx, dy, true) && k > 0
    requires FirstExit(b, x, y, dx, dy, true, k)
    ensures var at := Square(x, y, dx, dy, k);
      && InGrid(at.0, at.1) && Opens(b, at.0, at.1, dx, dy)
      && (Walkable(Element(b, at.0, at.1)) || Clear(b, at.0, at.1, dx, dy))
  {
    hide Opens, Clear, InReach, NoneBefore;
    assert IsTried(b, x, y, dx, dy, true, k);
    assert Tryable(b, x, y, dx, dy, k);
  }

  // ---- When the frame breaks ---------------------------------------------

  /** Stats stand on the board; only the message timer has the corner (0, 0). */
  ghost predicate FrameStats(b: BoardState)
    requires Valid(b)
  {
    forall i :: 0 <= i <= b.count ==> OnBoard(b.stats[i].X, b.stats[i].Y) || StandsOn(b, i, 0, 0)
  }

  /** Moving something to a square of the board keeps the frame exactly when it does
      not come from the frame, and panics exactly when it comes from outside the array. */
  lemma MoveOnFrame(b: BoardState, x: int, y: int, ex: int, ey: int)
    requires Valid(b) && Framed(b) && FrameStats(b) && OnBoard(ex, ey)
    ensures var r := ElementMove(b, x, y, ex, ey);
      && (r.Panic? <==> !InGrid(x, y))
      && (r.Done? ==> (Framed(r.board) <==> OnBoard(x, y) || (x, y) == (0, 0)))
  {
    WhoStandsThere(b, x, y);
    hide StatAt, ArrivedTile, OneOn, Unoccupied;
    var r := ElementMove(b, x, y, ex, ey);
    if r.Done? && !(OnBoard(x, y) || (x, y) == (0, 0)) {
      assert Element(r.board, x, y) != E_BOARD_EDGE;
    }
  }

  /** Ahead of a square of the board, whatever is no edge tile is on the board. */
  lemma AheadOnBoard(b: BoardState, x: int, y: int, dx: int, dy: int, j: int)
    requires Valid(b) && Framed(b) && UnitStep(dx, dy) && OnBoard(x, y) && Cell(b, x, y, dx, dy, j) != E_BOARD_EDGE
    ensures var p := Square(x, y, dx, dy, j); OnBoard(p.0, p.1)
  {
    var p := Square(x, y, dx, dy, j);
    assert Element(b, p.0, p.1) != E_BOARD_EDGE;
  }

  lemma ReachOnBoard(b: BoardState, x: int, y: int, dx: int, dy: int, n: nat, px: int, py: int)
    requires Valid(b) && Framed(b) && UnitStep(dx, dy) && OnBoard(x, y) && n > 0 && Furthest(b, x, y, dx, dy, n)
    requires 0 <= Dist(x, y, dx, dy, px, py) <= n
    ensures OnBoard(px, py)
  {
    var j := Dist(x, y, dx, dy, px, py);
    assert Square(x, y, dx, dy, j) == (px, py);
    hide Framed, Valid, Dist, Cell;
    assert j < n ==> PushableAlong(Cell(b, x, y, dx, dy, j), dx, dy);
    AheadOnBoard(b, x, y, dx, dy, j);
  }

  lemma OpenedFrame(b: BoardState, x: int, y: int, dx: int, dy: int, n: nat)
    requires Valid(b) && Framed(b) && FrameStats(b) && UnitStep(dx, dy) && OnBoard(x, y)
    requires n > 0 && Furthest(b, x, y, dx, dy, n)
    ensures var o := Opened(b, x, y, dx, dy, n); Framed(o) && FrameStats(o)
  {
    var p := Square(x, y, dx, dy, n);
    assert Dist(x, y, dx, dy, p.0, p.1) == n;
    ReachOnBoard(b, x, y, dx, dy, n, p.0, p.1);
    hide RemoveStat, Furthest, Square, Dist;
    WhoStandsThere(b, p.0, p.1);
    var id := StatAt(b, p.0, p.1);
    if id >= 0 {
      RemoveStatAs(b, id);
      var o := RemoveStat(b, id);
      forall k | 0 <= k <= o.count
        ensures OnBoard(o.stats[k].X, o.stats[k].Y) || StandsOn(o, k, 0, 0)
      {
        assert SameStat(o.stats[k], b.stats[KeyBefore(k, id)]);
        assert OnBoard(b.stats[KeyBefore(k, id)].X, b.stats[KeyBefore(k, id)].Y) || StandsOn(b, KeyBefore(k, id), 0, 0);
      }
    }
  }

  /** A push from a square of the board keeps the frame, and the stats on the board. */
  lemma ShiftedFrame(b: BoardState, o: BoardState, c: BoardState, x: int, y: int, dx: int, dy: int, n: nat)
    requires Valid(b) && Framed(b) && UnitStep(dx, dy) && OnBoard(x, y) && n > 0 && Furthest(b, x, y, dx, dy, n)
    requires ShiftedBy(o, c, x, y, dx, dy, n) && Framed(o) && FrameStats(o)
    ensures Framed(c) && FrameStats(c)
  {
    hide Dist, Floor, Ground, Brought, Furthest;
    forall px, py | InGrid(px, py) && !OnBoard(px, py) && (px, py) != (0, 0)
      ensures Element(c, px, py) == E_BOARD_EDGE
    {
      if 0 <= Dist(x, y, dx, dy, px, py) <= n {
        ReachOnBoard(b, x, y, dx, dy, n, px, py);
      }
      assert c.tiles[(px, py)] == ShiftedTile(o, x, y, dx, dy, n, px, py);
    }
    forall i | 0 <= i <= c.count
      ensures OnBoard(c.stats[i].X, c.stats[i].Y) || StandsOn(c, i, 0, 0)
    {
      StatOfShift(o, c, x, y, dx, dy, n, i);
      var s := o.stats[i];
      Near(x, y, dx, dy, s.X, s.Y);
      assert OnBoard(s.X, s.Y) || StandsOn(o, i, 0, 0);
      if 0 <= Dist(x, y, dx, dy, s.X, s.Y) < n {
        ReachOnBoard(b, x, y, dx, dy, n, s.X + dx, s.Y + dy);
      }
    }
  }

  lemma TriedFrame(b: BoardState, ex: int, ey: int, dx: int, dy: int, n: nat)
    requires Valid(b) && Framed(b) && FrameStats(b) && UnitStep(dx, dy) && OnBoard(ex, ey)
    requires TriedAs(b, ex, ey, dx, dy, n)
    ensures var t := Tried(b, ex, ey, dx, dy, true);
      t.Done? && Valid(t.board) && Framed(t.board) && FrameStats(t.board)
  {
    hide Tried, ShiftedBy, Opened, Furthest, Framed, FrameStats;
    var c := Tried(b, ex, ey, dx, dy, true).board;
    if n > 0 {
      OpenedFrame(b, ex, ey, dx, dy, n);
      ShiftedFrame(b, Opened(b, ex, ey, dx, dy, n), c, ex, ey, dx, dy, n);
    }
  }

  /** Where a stat comes to stand is on the board, or the message timer's corner. */
  lemma PlaceOnBoard(b: BoardState, ex: int, ey: int, dx: int, dy: int, n: nat, i: int)
    requires Valid(b) && Framed(b) && FrameStats(b) && UnitStep(dx, dy) && OnBoard(ex, ey)
    requires n > 0 && Furthest(b, ex, ey, dx, dy, n) && 0 <= i <= b.count
    ensures var p := PlaceAfter(b, ex, ey, dx, dy, n, i); OnBoard(p.0, p.1) || p == (0, 0)
  {
    hide Dist, Furthest, Framed;
    var s := b.stats[i];
    Near(ex, ey, dx, dy, s.X, s.Y);
    assert OnBoard(s.X, s.Y) || StandsOn(b, i, 0, 0);
    if 0 <= Dist(ex, ey, dx, dy, s.X, s.Y) < n {
      ReachOnBoard(b, ex, ey, dx, dy, n, s.X + dx, s.Y + dy);
    }
  }

  /** The outcomes, told by where the stat stands that refills the slot, if one does. */
  ghost predicate FrameOutcome(r: Outcome, refilled: bool, p: Coord, dx: int, dy: int) {
    && ValidOutcome(r)
    && (r.Panic? <==> refilled && p == (0, 0) && (dx == 1 || dy == 1))
    && (r.Done? ==> (Framed(r.board) <==> (refilled ==> OnBoard(p.0 - dx, p.1 - dy))))
  }

  lemma OutcomeOfMove(c: BoardState, refilled: bool, p: Coord, x: int, y: int, dx: int, dy: int, ex: int, ey: int)
    requires Valid(c) && Framed(c) && FrameStats(c) && UnitStep(dx, dy) && OnBoard(ex, ey) && OnBoard(x, y)
    requires refilled ==> OnBoard(p.0, p.1) || p == (0, 0)
    ensures var (sx, sy) := if refilled then (p.0 - dx, p.1 - dy) else (x, y);
      FrameOutcome(ElementMove(c, sx, sy, ex, ey), refilled, p, dx, dy)
  {
    var (sx, sy) := if refilled then (p.0 - dx, p.1 - dy) else (x, y);
    hide Framed, FrameStats, ElementMove;
    MoveOnFrame(c, sx, sy, ex, ey);
  }

  /** The place of the stat that follows slot s in the table. */
  function NextPlace(b: BoardState, s: int, ex: int, ey: int, dx: int, dy: int, n: nat): Coord
    requires 0 <= s <= b.count < |b.stats|
  {
    PlaceAfter(b, ex, ey, dx, dy, n, if s < b.count then s + 1 else s)
  }

  lemma OutcomeAtExit(b: BoardState, c: BoardState, s: int, g: int, x: int, y: int, dx: int, dy: int, ex: int,
          ey: int, n: nat)
    requires Valid(b) && Framed(b) && FrameStats(b) && UnitStep(dx, dy) && OnBoard(x, y) && OnBoard(ex, ey)
    requires Valid(c) && Framed(c) && FrameStats(c)
    requires 0 <= s <= b.count && if n == 0 then g == -1 else Furthest(b, ex, ey, dx, dy, n)
    ensures var src := CarriedFrom(b, s, g, x, y, dx, dy, ex, ey, n);
      FrameOutcome(ElementMove(c, src.0, src.1, ex, ey), Refilled(b, s, g), NextPlace(b, s, ex, ey, dx, dy, n), dx, dy)
  {
    hide Framed, FrameStats, PlaceAfter, FrameOutcome, Furthest, UnitStep, ElementMove;
    if Refilled(b, s, g) {
      PlaceOnBoard(b, ex, ey, dx, dy, n, s + 1);
    }
    OutcomeOfMove(c, Refilled(b, s, g), NextPlace(b, s, ex, ey, dx, dy, n), x, y, dx, dy, ex, ey);
  }

  lemma ExitOnBoard(b: BoardState, x: int, y: int, dx: int, dy: int, k: nat)
    requires Valid(b) && Framed(b) && UnitStep(dx, dy) && OnBoard(x, y) && k > 0 && FirstExit(b, x, y, dx, dy, true, k)
    ensures var at := Square(x, y, dx, dy, k); OnBoard(at.0, at.1)
  {
    hide Framed, Cell, IsExit, NoneBefore, Valid;
    AheadOnBoard(b, x, y, dx, dy, k);
  }

  lemma CrushedAs(b: BoardState, ex: int, ey: int, dx: int, dy: int, n: nat)
    requires Valid(b) && UnitStep(dx, dy) && InGrid(ex, ey) && TriedAs(b, ex, ey, dx, dy, n)
    ensures if n == 0 then CrushedStat(b, ex, ey, dx, dy, n) == -1 else Furthest(b, ex, ey, dx, dy, n)
  {
    hide Tried, ShiftedBy, Opened, Furthest;
    NothingCrushed(b, ex, ey, dx, dy);
  }

  /** On a framed board a transporter breaks the frame, or indexes outside it, exactly
      when its slot has been refilled by a stat that stands behind the frame's edge:
      outside exactly when that is the message timer and the step leads away from it. */
  lemma TransportOnFrame(b: BoardState, x: int, y: int, dx: int, dy: int) returns (k: nat, n: nat)
    requires Carrying(b, x, y, dx, dy) && Framed(b) && FrameStats(b) && OnBoard(x, y) && OnBoard(x + dx, y + dy)
    ensures FirstExit(b, x + dx, y + dy, dx, dy, true, k)
    ensures k == 0 ==> Transport(b, x, y, dx, dy) == Done(b)
    ensures k > 0 ==>
      var at, s := Square(x + dx, y + dy, dx, dy, k), StatAt(b, x + dx, y + dy);
      && InGrid(at.0, at.1) && TriedAs(b, at.0, at.1, dx, dy, n) && 0 <= s <= b.count
      && FrameOutcome(Transport(b, x, y, dx, dy), Refilled(b, s, CrushedStat(b, at.0, at.1, dx, dy, n)),
                      NextPlace(b, s, at.0, at.1, dx, dy, n), dx, dy)
  {
    hide Search, Transport, ElementMove, Tried, FirstExit, StatAt, AllTryable, Framed, FrameStats, CrushedStat;
    hide Square, FrameOutcome, TriedAs, UnitStep, OneOn, CarriedFrom, NextPlace, Refilled, OnBoard;
    k, n := TransportCarries(b, x, y, dx, dy);
    if k > 0 {
      var at, s := Square(x + dx, y + dy, dx, dy, k), StatAt(b, x + dx, y + dy);
      ExitOnBoard(b, x + dx, y + dy, dx, dy, k);
      TriedFrame(b, at.0, at.1, dx, dy, n);
      var g, c := CrushedStat(b, at.0, at.1, dx, dy, n), Tried(b, at.0, at.1, dx, dy, true).board;
      CrushedAs(b, at.0, at.1, dx, dy, n);
      OutcomeAtExit(b, c, s, g, x, y, dx, dy, at.0, at.1, n);
    }
  }

  // ---- A board on which it happens ---------------------------------------

  ghost predicate Standing(b: BoardState, i: int, x: int, y: int)
    requires Valid(b)
  {
    0 <= i < STAT_SLOTS && b.stats[i].X == x && b.stats[i].Y == y
  }

  /** Along row 5: a player, a transporter going east, a boulder, and a centipede head
      whose stat has a lower number than the transporter's; a fourth stat at (px, py). */
  ghost predicate Trap(b: BoardState, px: int, py: int) {
    && ((px, py) == (1, 9) || (px, py) == (0, 0))
    && Valid(b) && Framed(b) && b.count == 3
    && Standing(b, 0, 10, 5) && Standing(b, 1, 13, 5) && Standing(b, 2, 11, 5) && Standing(b, 3, px, py)
    && b.stats[1].Under.Element == E_EMPTY && b.stats[2].StepX == 1 && b.stats[2].StepY == 0
    && Element(b, 11, 5) == E_TRANSPORTER && Element(b, 12, 5) == E_BOULDER && Element(b, 13, 5) == E_CENTIPEDE_HEAD
  }

  lemma HeadRemoved(b: BoardState, px: int, py: int)
    requires Trap(b, px, py)
    ensures var c := RemoveStat(b, 1);
      && c.count == 2 && c.tiles == b.tiles[(13, 5) := b.stats[1].Under]
      && Standing(c, 0, 10, 5) && Standing(c, 1, 11, 5) && Standing(c, 2, px, py)
      && StatAt(c, 12, 5) == -1
  {
    hide RemoveStat;
    var c := RemoveStat(b, 1);
    RestOfRemoval(b, 1);
    SurvivorSlot(b, 1, 0);
    SurvivorSlot(b, 1, 2);
    SurvivorSlot(b, 1, 3);
    NoStatAt(c, 12, 5);
  }

  /** The boulder crushes the head and moves up, and the stat table closes up. */
  lemma BoulderCrushes(b: BoardState, px: int, py: int)
    requires Trap(b, px, py)
    ensures var r := Push(b, 12, 5, 1, 0);
      && r.Done? && Valid(r.board) && r.board.count == 2 && Standing(r.board, 2, px, py) && StatAt(r.board, 0, 9) == -1
      && Element(r.board, 12, 5) == E_EMPTY && r.board.tiles[(0, 9)] == b.tiles[(0, 9)]
  {
    hide RemoveStat, Framed;
    HeadRemoved(b, px, py);
    assert StatAt(b, 13, 5) == 1;
    assert Push(b, 13, 5, 1, 0) == Done(b);
    var c := RemoveStat(b, 1);
    assert DamageTile(b, 13, 5) == c;
    var d := ElementMove(c, 12, 5, 13, 5).board;
    assert Push(b, 12, 5, 1, 0) == Done(d);
    NoStatAt(d, 0, 9);
  }

  lemma BoulderIsFound(b: BoardState, px: int, py: int)
    requires Trap(b, px, py)
    ensures var p := Push(b, 12, 5, 1, 0); p.Done? && Search(b, 11, 5, 1, 0, true) == Found(p.board, 12, 5)
  {
    BoulderCrushes(b, px, py);
    hide Push, Framed, StatAt, Standing;
  }

  /** The player walks into the transporter; the boulder beyond crushes the head, and
      the transporter's slot now holds the fourth stat: what gets carried is what
      stands before that. */
  lemma SlotIsReused(b: BoardState, px: int, py: int)
    requires Trap(b, px, py)
    ensures var p := Push(b, 12, 5, 1, 0);
      p.Done? && Transport(b, 10, 5, 1, 0) == ElementMove(p.board, px - 1, py, 12, 5)
  {
    BoulderCrushes(b, px, py);
    BoulderIsFound(b, px, py);
    TransporterAt(b, px, py);
    hide Push, Framed, Search, ElementMove, StatAt, Trap, Valid;
  }

  lemma TransporterAt(b: BoardState, px: int, py: int)
    requires Trap(b, px, py)
    ensures StatAt(b, 11, 5) == 2 && b.stats[2].StepX == 1 && b.stats[2].StepY == 0
  {
    hide Framed;
  }

  /** Beside (1, 9) that is a frame tile; beside the message timer it is nothing at all. */
  lemma SlotReuseBreaksTheFrame(b: BoardState, px: int, py: int)
    requires Trap(b, px, py)
    ensures var r := Transport(b, 10, 5, 1, 0);
      if (px, py) == (0, 0) then r.Panic?
      else r.Done? && Element(r.board, 0, 9) == E_EMPTY && Element(r.board, 12, 5) == E_BOARD_EDGE && !Framed(r.board)
  {
    SlotIsReused(b, px, py);
    BoulderCrushes(b, px, py);
    hide Push, Transport, Framed;
    var d := Push(b, 12, 5, 1, 0).board;
    if (px, py) == (0, 0) {
      OutsideIsEmpty(d);
    } else {
      EdgeAt(b);
      BrokenFrame(Transport(b, 10, 5, 1, 0).board);
    }
  }

  lemma EdgeAt(b: BoardState)
    requires Trap(b, 1, 9)
    ensures b.tiles[(0, 9)].Element == E_BOARD_EDGE
  {
  }

  lemma OutsideIsEmpty(b: BoardState)
    requires Valid(b)
    ensures StatAt(b, -1, 0) == -1
  {
    NoStatAt(b, -1, 0);
  }

  lemma BrokenFrame(b: BoardState)
    requires Valid(b) && Element(b, 0, 9) != E_BOARD_EDGE
    ensures !Framed(b)
  {
  }

  function WitnessTile(x: int, y: int): TTile {
    if !OnBoard(x, y) then TTile(E_BOARD_EDGE, 0)
    else if y == 5 then TTile(WitnessRow(x), 0)
    else if (x, y) == (1, 9) then TTile(E_LION, 0)
    else TTile(E_EMPTY, 0)
  }

  function WitnessRow(x: int): Byte {
    if x == 10 then E_PLAYER else if x == 11 then E_TRANSPORTER else if x == 12 then E_BOULDER
    else if x == 13 then E_CENTIPEDE_HEAD else E_EMPTY
  }

  ghost function WitnessGrid(): map<Coord, TTile> {
    map x: int, y: int | 0 <= x < GRID_W && 0 <= y < GRID_H :: (x, y) := WitnessTile(x, y)
  }

  function WitnessStats(px: Byte, py: Byte): seq<TStat> {
    [BLANK.(X := 10, Y := 5), BLANK.(X := 13, Y := 5), BLANK.(X := 11, Y := 5, StepX := 1), BLANK.(X := px, Y := py)]
      + seq(STAT_SLOTS - 4, _ => BLANK)
  }

  const BLANK := TStat(0, 0, 0, 0, 0, 0, 0, 0, -1, -1, TTile(0, 0), "", 0, 0)

  ghost function Witness(px: Byte, py: Byte): BoardState {
    BoardState(WitnessGrid(), WitnessStats(px, py), 3, seq(STAT_SLOTS, _ => 0), map[], 0)
  }

  lemma WitnessStatsAre(px: Byte, py: Byte)
    ensures var s := WitnessStats(px, py);
      && |s| == STAT_SLOTS
      && s[0] == BLANK.(X := 10, Y := 5) && s[1] == BLANK.(X := 13, Y := 5)
      && s[2] == BLANK.(X := 11, Y := 5, StepX := 1) && s[3] == BLANK.(X := px, Y := py)
  {
  }

  lemma WitnessGridIs()
    ensures forall x, y :: (x, y) in WitnessGrid() <==> InGrid(x, y)
    ensures forall x, y :: InGrid(x, y) ==> WitnessGrid()[(x, y)] == WitnessTile(x, y)
  {
    hide WitnessTile;
  }

  /** Four stats on squares of their own, three of them on row 5. */
  ghost predicate FourStats(b: BoardState, px: Byte, py: Byte)
    requires |b.stats| == STAT_SLOTS
  {
    && b.count == 3
    && b.stats[0] == BLANK.(X := 10, Y := 5) && b.stats[1] == BLANK.(X := 13, Y := 5)
    && b.stats[2] == BLANK.(X := 11, Y := 5, StepX := 1) && b.stats[3] == BLANK.(X := px, Y := py)
  }

  lemma WitnessFits(px: Byte, py: Byte)
    requires (px, py) == (1, 9) || (px, py) == (0, 0)
    ensures var s := WitnessStats(px, py); |s| == STAT_SLOTS && forall i :: 0 <= i <= 3 ==> InGrid(s[i].X, s[i].Y)
  {
    WitnessStatsAre(px, py);
    hide WitnessStats;
    forall i | 0 <= i <= 3
      ensures InGrid(WitnessStats(px, py)[i].X, WitnessStats(px, py)[i].Y)
    {
      if i == 0 {} else if i == 1 {} else if i == 2 {} else {}
    }
  }

  lemma WitnessIsValid(px: Byte, py: Byte)
    requires (px, py) == (1, 9) || (px, py) == (0, 0)
    ensures Valid(Witness(px, py)) && FourStats(Witness(px, py), px, py)
    ensures forall x, y :: InGrid(x, y) ==> Witness(px, py).tiles[(x, y)] == WitnessTile(x, y)
  {
    WitnessFits(px, py);
    WitnessStatsAre(px, py);
    WitnessGridIs();
    hide WitnessStats, WitnessGrid, WitnessTile, InGrid;
  }

  lemma WitnessIsFramed(px: Byte, py: Byte)
    requires (px, py) == (1, 9) || (px, py) == (0, 0)
    ensures Valid(Witness(px, py)) && Framed(Witness(px, py))
  {
    WitnessIsValid(px, py);
    hide Witness, Valid, WitnessRow;
    assert forall x, y :: InGrid(x, y) && !OnBoard(x, y) ==> WitnessTile(x, y) == TTile(E_BOARD_EDGE, 0);
  }

  lemma WitnessIsTrap(px: Byte, py: Byte)
    requires (px, py) == (1, 9) || (px, py) == (0, 0)
    ensures Trap(Witness(px, py), px, py)
  {
    WitnessIsValid(px, py);
    WitnessIsFramed(px, py);
    hide Witness, Framed;
  }

  lemma WitnessStands(px: Byte, py: Byte, i: int)
    requires ((px, py) == (1, 9) || (px, py) == (0, 0)) && 0 <= i <= 3
    ensures var b := Witness(px, py);
      Valid(b) && !Walkable(StatTile(b, i)) && b.stats[i].Under.Element != E_TRANSPORTER
  {
    WitnessIsValid(px, py);
    var b := Witness(px, py);
    hide Witness, WitnessTile;
    var s := b.stats[i];
    assert s.Under == BLANK.Under && FirmSquare(s.X, s.Y, px, py) by {
      if i == 0 {} else if i == 1 {} else if i == 2 {} else {}
    }
    hide Valid, FourStats;
    FirmTile(s.X, s.Y, px, py);
  }

  predicate FirmSquare(x: int, y: int, px: int, py: int) {
    (x, y) == (10, 5) || (x, y) == (13, 5) || (x, y) == (11, 5) || (x, y) == (px, py)
  }

  lemma FirmTile(x: int, y: int, px: int, py: int)
    requires FirmSquare(x, y, px, py) && ((px, py) == (1, 9) || (px, py) == (0, 0))
    ensures InGrid(x, y) && !Walkable(WitnessTile(x, y).Element)
  {
  }

  lemma FourSquares(b: BoardState, px: Byte, py: Byte)
    requires Valid(b) && FourStats(b, px, py) && ((px, py) == (1, 9) || (px, py) == (0, 0))
    ensures OnePerSquare(b)
  {
    forall i, j | 0 <= i < j <= 3
      ensures b.stats[i].X != b.stats[j].X || b.stats[i].Y != b.stats[j].Y
    {
      if i == 0 {} else if i == 1 {} else {}
    }
  }

  lemma WitnessIsSeated(px: Byte, py: Byte)
    requires (px, py) == (1, 9) || (px, py) == (0, 0)
    ensures Valid(Witness(px, py)) && WellSeated(Witness(px, py))
  {
    WitnessIsValid(px, py);
    var b := Witness(px, py);
    hide Witness, StatTile, Walkable, WitnessTile;
    forall i | 0 <= i <= 3
      ensures !Walkable(StatTile(b, i)) && b.stats[i].Under.Element != E_TRANSPORTER
    {
      WitnessStands(px, py, i);
    }
    FourSquares(b, px, py);
    hide FourStats, OnePerSquare;
  }

  lemma OneTransporter(x: int, y: int)
    requires WitnessTile(x, y).Element == E_TRANSPORTER
    ensures (x, y) == (11, 5)
  {
  }

  lemma TransporterStands(b: BoardState, px: Byte, py: Byte)
    requires Valid(b) && FourStats(b, px, py)
    ensures StatAt(b, 11, 5) >= 0
  {
    assert StandsOn(b, 2, 11, 5);
    FirstIsFirst(b, 11, 5, 2);
  }

  lemma WitnessIsBacked(px: Byte, py: Byte)
    requires (px, py) == (1, 9) || (px, py) == (0, 0)
    ensures Valid(Witness(px, py)) && Backed(Witness(px, py))
  {
    WitnessIsValid(px, py);
    var b := Witness(px, py);
    TransporterStands(b, px, py);
    hide Witness, StatAt, WitnessTile, FourStats;
    forall x, y | InGrid(x, y) && Element(b, x, y) == E_TRANSPORTER
      ensures StatAt(b, x, y) >= 0
    {
      OneTransporter(x, y);
    }
  }

  /** Such boards exist, and nothing but the order of their stats is wrong with them. */
  lemma TrapExists(px: Byte, py: Byte)
    requires (px, py) == (1, 9) || (px, py) == (0, 0)
    ensures Trap(Witness(px, py), px, py) && Backed(Witness(px, py)) && WellSeated(Witness(px, py))
  {
    hide Witness, WellSeated, Trap, Backed;
    WitnessIsTrap(px, py);
    WitnessIsSeated(px, py);
    WitnessIsBacked(px, py);
  }
}
