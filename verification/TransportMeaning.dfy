/** What a transporter does, without saying how: it carries a thing to the first exit,
    which lies right behind the transporter or right behind one that comes the other
    way, and is open or can be pushed open. */
module TransportMeaning {
  import opened GameVars
  import opened BoardSpec
  import opened PushSpec
  import opened PushMeaning

  /** The search may stop at the k-th square: it is the first, if the search allows
      that, or follows a transporter that comes the other way. */
  ghost predicate Candidate(b: BoardState, x: int, y: int, dx: int, dy: int, validDest: bool, k: int)
    requires Valid(b)
  {
    var at, before := Square(x, y, dx, dy, k), Square(x, y, dx, dy, k - 1);
    && k >= 1 && InGrid(at.0, at.1)
    && if k == 1 then validDest else
         && InGrid(before.0, before.1) && b.tiles[before].Element == 30
         && var id := StatAt(b, before.0, before.1);
           id >= 0 && b.stats[id].StepX == -dx && b.stats[id].StepY == -dy
  }

  /** A push of (px, py) moves something. */
  ghost predicate Moves(b: BoardState, px: int, py: int, dx: int, dy: int)
    requires Valid(b)
  {
    exists n: nat :: n > 0 && Furthest(b, px, py, dx, dy, n)
  }

  ghost predicate Opens(b: BoardState, px: int, py: int, dx: int, dy: int)
    requires Valid(b) && InGrid(px, py)
  {
    Walkable(Element(b, px, py)) || Moves(b, px, py, dx, dy)
  }

  /** The k-th square may be stepped onto, and is open or opens when it is pushed. */
  ghost predicate IsExit(b: BoardState, x: int, y: int, dx: int, dy: int, validDest: bool, k: int)
    requires Valid(b)
  {
    var at := Square(x, y, dx, dy, k);
    Candidate(b, x, y, dx, dy, validDest, k) && Opens(b, at.0, at.1, dx, dy)
  }

  /** The search gets as far as square k: no edge tile lies before it or on it. */
  ghost predicate InReach(b: BoardState, x: int, y: int, dx: int, dy: int, k: int)
    requires Valid(b)
  {
    forall j :: 1 <= j <= k ==> Cell(b, x, y, dx, dy, j) != E_BOARD_EDGE
  }

  /** k is the distance of the first exit within reach, 0 when there is none. */
  ghost predicate FirstExit(b: BoardState, x: int, y: int, dx: int, dy: int, validDest: bool, k: nat)
    requires Valid(b)
  {
    if k == 0 then forall j :: j >= 1 && InReach(b, x, y, dx, dy, j) ==> !IsExit(b, x, y, dx, dy, validDest, j)
    else
      && InReach(b, x, y, dx, dy, k) && IsExit(b, x, y, dx, dy, validDest, k)
      && NoneBefore(b, x, y, dx, dy, validDest, k)
  }

  ghost predicate NoneBefore(b: BoardState, x: int, y: int, dx: int, dy: int, validDest: bool, k: int)
    requires Valid(b)
  {
    forall j :: 1 <= j < k ==> !IsExit(b, x, y, dx, dy, validDest, j)
  }

  /** The search tries to step onto the k-th square. */
  ghost predicate IsTried(b: BoardState, x: int, y: int, dx: int, dy: int, validDest: bool, k: int)
    requires Valid(b)
  {
    && InReach(b, x, y, dx, dy, k) && Candidate(b, x, y, dx, dy, validDest, k)
    && NoneBefore(b, x, y, dx, dy, validDest, k)
  }

  /** What a push needs to know of the k-th square (see PushMeaning.Clear). */
  ghost predicate Tryable(b: BoardState, x: int, y: int, dx: int, dy: int, k: int)
    requires Valid(b)
  {
    var at := Square(x, y, dx, dy, k);
    InGrid(at.0, at.1) && (Walkable(Element(b, at.0, at.1)) || Clear(b, at.0, at.1, dx, dy))
  }

  /** It is known of every square the search tries, up to the first exit. */
  ghost predicate AllTryable(b: BoardState, x: int, y: int, dx: int, dy: int, validDest: bool)
    requires Valid(b)
  {
    forall k :: IsTried(b, x, y, dx, dy, validDest, k) ==> Tryable(b, x, y, dx, dy, k)
  }

  // ---- Seen from the next square -----------------------------------------

  lemma CandidateFromNext(b: BoardState, x: int, y: int, dx: int, dy: int, v: bool, k: int)
    requires Valid(b) && UnitStep(dx, dy) && InGrid(x + dx, y + dy) && k >= 1
    ensures Candidate(b, x + dx, y + dy, dx, dy, Opposite(b, x + dx, y + dy, dx, dy), k) <==>
            Candidate(b, x, y, dx, dy, v, k + 1)
  {
    hide StatAt;
    SquareAhead(x, y, dx, dy, k);
    SquareAhead(x, y, dx, dy, k - 1);
  }

  lemma ExitFromNext(b: BoardState, x: int, y: int, dx: int, dy: int, v: bool, k: int)
    requires Valid(b) && UnitStep(dx, dy) && InGrid(x + dx, y + dy) && k >= 1
    ensures IsExit(b, x + dx, y + dy, dx, dy, Opposite(b, x + dx, y + dy, dx, dy), k) <==>
            IsExit(b, x, y, dx, dy, v, k + 1)
  {
    CandidateFromNext(b, x, y, dx, dy, v, k);
    SquareAhead(x, y, dx, dy, k);
    assert Candidate(b, x, y, dx, dy, v, k + 1) ==>
      var at := Square(x, y, dx, dy, k + 1); InGrid(at.0, at.1);
    hide Valid, Opposite, Opens;
  }

  lemma ReachFromNext(b: BoardState, x: int, y: int, dx: int, dy: int, k: int)
    requires Valid(b) && UnitStep(dx, dy) && InGrid(x + dx, y + dy) && Element(b, x + dx, y + dy) != E_BOARD_EDGE
    ensures InReach(b, x + dx, y + dy, dx, dy, k) <==> InReach(b, x, y, dx, dy, k + 1)
  {
    var nx, ny := x + dx, y + dy;
    assert Cell(b, x, y, dx, dy, 1) == Element(b, nx, ny);
    hide Valid, Cell;
    if InReach(b, x, y, dx, dy, k + 1) {
      forall j | 1 <= j <= k
        ensures Cell(b, nx, ny, dx, dy, j) != E_BOARD_EDGE
      {
        NextCellAhead(b, x, y, dx, dy, j);
      }
    }
    if InReach(b, nx, ny, dx, dy, k) {
      forall j | 1 <= j <= k + 1
        ensures Cell(b, x, y, dx, dy, j) != E_BOARD_EDGE
      {
        NextCellAhead(b, x, y, dx, dy, j - 1);
      }
    }
  }

  lemma NoneBeforeFromNext(b: BoardState, x: int, y: int, dx: int, dy: int, v: bool, k: int)
    requires Valid(b) && UnitStep(dx, dy) && InGrid(x + dx, y + dy) && !IsExit(b, x, y, dx, dy, v, 1)
    requires NoneBefore(b, x + dx, y + dy, dx, dy, Opposite(b, x + dx, y + dy, dx, dy), k)
    ensures NoneBefore(b, x, y, dx, dy, v, k + 1)
  {
    hide IsExit, Opposite, Valid;
    forall j | 1 <= j < k + 1
      ensures !IsExit(b, x, y, dx, dy, v, j)
    {
      if j >= 2 {
        ExitFromNext(b, x, y, dx, dy, v, j - 1);
      }
    }
  }

  lemma TriedFromNext(b: BoardState, x: int, y: int, dx: int, dy: int, v: bool, k: int)
    requires Valid(b) && UnitStep(dx, dy)
    requires InGrid(x + dx, y + dy) && Element(b, x + dx, y + dy) != E_BOARD_EDGE && !IsExit(b, x, y, dx, dy, v, 1)
    requires IsTried(b, x + dx, y + dy, dx, dy, Opposite(b, x + dx, y + dy, dx, dy), k)
    ensures IsTried(b, x, y, dx, dy, v, k + 1)
  {
    assert k >= 1;
    hide Valid, Cell, Candidate, InReach, IsExit, Opposite, NoneBefore;
    CandidateFromNext(b, x, y, dx, dy, v, k);
    ReachFromNext(b, x, y, dx, dy, k);
    NoneBeforeFromNext(b, x, y, dx, dy, v, k);
  }

  lemma TryableFromNext(b: BoardState, x: int, y: int, dx: int, dy: int, v: bool)
    requires Valid(b) && UnitStep(dx, dy) && AllTryable(b, x, y, dx, dy, v)
    requires InGrid(x + dx, y + dy) && Element(b, x + dx, y + dy) != E_BOARD_EDGE && !IsExit(b, x, y, dx, dy, v, 1)
    ensures AllTryable(b, x + dx, y + dy, dx, dy, Opposite(b, x + dx, y + dy, dx, dy))
  {
    hide Valid, Element, IsExit, Opposite, IsTried, Clear, Square;
    var nx, ny := x + dx, y + dy;
    var w := Opposite(b, nx, ny, dx, dy);
    forall k | IsTried(b, nx, ny, dx, dy, w, k)
      ensures Tryable(b, nx, ny, dx, dy, k)
    {
      TriedFromNext(b, x, y, dx, dy, v, k);
      assert Tryable(b, x, y, dx, dy, k + 1);
      SquareAhead(x, y, dx, dy, k);
    }
  }

  lemma FirstFromNext(b: BoardState, x: int, y: int, dx: int, dy: int, v: bool, m: nat)
    requires Valid(b) && UnitStep(dx, dy) && InGrid(x + dx, y + dy) && Element(b, x + dx, y + dy) != E_BOARD_EDGE
    requires !IsExit(b, x, y, dx, dy, v, 1)
    requires FirstExit(b, x + dx, y + dy, dx, dy, Opposite(b, x + dx, y + dy, dx, dy), m)
    ensures FirstExit(b, x, y, dx, dy, v, if m == 0 then 0 else m + 1)
  {
    hide Valid, IsExit, InReach, Opposite, NoneBefore;
    if m > 0 {
      ExitFromNext(b, x, y, dx, dy, v, m);
      ReachFromNext(b, x, y, dx, dy, m);
      NoneBeforeFromNext(b, x, y, dx, dy, v, m);
    } else {
      forall j | j >= 1 && InReach(b, x, y, dx, dy, j)
        ensures !IsExit(b, x, y, dx, dy, v, j)
      {
        if j >= 2 {
          ExitFromNext(b, x, y, dx, dy, v, j - 1);
          ReachFromNext(b, x, y, dx, dy, j - 1);
        }
      }
    }
  }

  // ---- One try -----------------------------------------------------------

  /** A push that moves something leaves the square it started on open. */
  lemma PushOpens(b: BoardState, px: int, py: int, dx: int, dy: int, n: nat)
    requires Valid(b) && UnitStep(dx, dy) && InGrid(px, py) && n > 0 && Clear(b, px, py, dx, dy)
    requires PushedTo(b, px, py, dx, dy, n)
    ensures Walkable(Element(Push(b, px, py, dx, dy).board, px, py))
  {
    SquareAhead(px, py, dx, dy, 0);
    ClearHere(b, px, py, dx, dy);
    GroundHere(b, px, py, dx, dy, n);
    hide Valid, Furthest, Clear, Ground, OneOn, ShiftedBy, Opened, Push, Walkable;
    OpenedNear(b, px, py, dx, dy, n, 0);
    NextLaidBare(Opened(b, px, py, dx, dy, n), Push(b, px, py, dx, dy).board, px, py, dx, dy, n);
  }

  lemma GroundHere(b: BoardState, px: int, py: int, dx: int, dy: int, n: nat)
    requires Valid(b) && UnitStep(dx, dy) && InGrid(px, py) && n > 0 && Clear(b, px, py, dx, dy)
    requires Furthest(b, px, py, dx, dy, n)
    ensures Walkable(Ground(b, px, py).Element)
  {
    SquareAhead(px, py, dx, dy, 0);
    CellHere(b, px, py, dx, dy);
    assert Reached(b, px, py, dx, dy, 0);
    assert Yielding(b, px, py, dx, dy, 0);
    hide Valid, Ground, OneOn;
    assert PushableAlong(Cell(b, px, py, dx, dy, 0), dx, dy) && Cell(b, px, py, dx, dy, 0) != E_EMPTY;
  }

  lemma NotBoth(b: BoardState, px: int, py: int, dx: int, dy: int)
    requires Valid(b) && Furthest(b, px, py, dx, dy, 0)
    ensures !Moves(b, px, py, dx, dy)
  {
    hide Cell, Reached, Valid;
  }

  lemma PushedOrNot(b: BoardState, px: int, py: int, dx: int, dy: int, n: nat)
    requires Valid(b) && UnitStep(dx, dy) && PushedTo(b, px, py, dx, dy, n)
    ensures var t := Push(b, px, py, dx, dy);
      Furthest(b, px, py, dx, dy, n) && t.Done? && (n == 0 ==> t.board == b)
  {
    hide Push, Furthest, Valid, UnitStep, ShiftedBy, Opened;
    if n == 0 {
      NothingOpened(b, px, py, dx, dy);
      NothingShifted(b, Push(b, px, py, dx, dy).board, px, py, dx, dy);
    }
  }

  lemma SolidTry(b: BoardState, px: int, py: int, dx: int, dy: int)
    requires Valid(b) && UnitStep(dx, dy) && InGrid(px, py) && !Walkable(Element(b, px, py)) && Clear(b, px, py, dx, dy)
    ensures var t := Push(b, px, py, dx, dy);
      && t.Done?
      && if Moves(b, px, py, dx, dy) then Walkable(Element(t.board, px, py)) else t.board == b
  {
    hide Clear, Push, Furthest, Cell, PushedTo, Valid, UnitStep;
    CellHere(b, px, py, dx, dy);
    var n := PushesTo(b, px, py, dx, dy);
    PushedOrNot(b, px, py, dx, dy, n);
    if n > 0 {
      PushOpens(b, px, py, dx, dy, n);
    } else {
      NotBoth(b, px, py, dx, dy);
    }
  }

  /** Trying a square changes the board only if that opens it. */
  lemma TryOnce(b: BoardState, px: int, py: int, dx: int, dy: int)
    requires Valid(b) && UnitStep(dx, dy) && InGrid(px, py)
    requires Walkable(Element(b, px, py)) || Clear(b, px, py, dx, dy)
    ensures var t := Tried(b, px, py, dx, dy, true);
      && t.Done?
      && if Opens(b, px, py, dx, dy) then Walkable(Element(t.board, px, py))
         else t.board == b && !Walkable(Element(b, px, py))
  {
    hide Clear, Push, UnitStep, Moves;
    if !Walkable(Element(b, px, py)) {
      SolidTry(b, px, py, dx, dy);
    }
  }

  // ---- The whole search --------------------------------------------------

  /** The k-th square with what a push there has done, for an exit k steps ahead. */
  ghost function ExitAt(b: BoardState, x: int, y: int, dx: int, dy: int, k: nat): SearchResult
    requires Valid(b) && UnitStep(dx, dy)
  {
    var at := Square(x, y, dx, dy, k);
    if k == 0 then Missed(b)
    else if !InGrid(at.0, at.1) then SearchPanic
    else
      match Tried(b, at.0, at.1, dx, dy, true)
      case Panic => SearchPanic
      case Done(c) => Found(c, at.0, at.1)
  }

  lemma ExitAtFromNext(b: BoardState, x: int, y: int, dx: int, dy: int, m: nat)
    requires Valid(b) && UnitStep(dx, dy)
    ensures ExitAt(b, x, y, dx, dy, 0) == Missed(b) == ExitAt(b, x + dx, y + dy, dx, dy, 0)
    ensures m > 0 ==> ExitAt(b, x + dx, y + dy, dx, dy, m) == ExitAt(b, x, y, dx, dy, m + 1)
  {
    hide Tried, Square;
    SquareAhead(x, y, dx, dy, m);
  }

  lemma ExitHere(b: BoardState, x: int, y: int, dx: int, dy: int)
    requires Valid(b) && UnitStep(dx, dy) && InGrid(x + dx, y + dy) && Tried(b, x + dx, y + dy, dx, dy, true).Done?
    ensures ExitAt(b, x, y, dx, dy, 1) == Found(Tried(b, x + dx, y + dy, dx, dy, true).board, x + dx, y + dy)
  {
    hide Tried;
    SquareAhead(x, y, dx, dy, 0);
  }

  /** The search changes nothing before the first exit, and opens that. */
  lemma {:induction false} SearchFindsFirstExit(b: BoardState, x: int, y: int, dx: int, dy: int, validDest: bool)
    returns (k: nat)
    requires Valid(b) && UnitStep(dx, dy) && InGrid(x, y) && AllTryable(b, x, y, dx, dy, validDest)
    requires !Search(b, x, y, dx, dy, validDest).SearchPanic?
    ensures FirstExit(b, x, y, dx, dy, validDest, k)
    ensures Search(b, x, y, dx, dy, validDest) == ExitAt(b, x, y, dx, dy, k)
    decreases Room(x, y, dx, dy)
  {
    hide Search, Opposite, AllTryable, FirstExit, Walkable, Tried, IsExit, Opens, ExitAt;
    SearchUnfolds(b, x, y, dx, dy, validDest);
    var nx, ny := x + dx, y + dy;
    k := 0;
    if Element(b, nx, ny) == E_BOARD_EDGE {
      EdgeStops(b, x, y, dx, dy, validDest);
      ExitAtFromNext(b, x, y, dx, dy, 0);
    } else {
      FirstTry(b, x, y, dx, dy, validDest);
      if validDest && Opens(b, nx, ny, dx, dy) {
        k := 1;
        FirstIsExit(b, x, y, dx, dy);
        ExitHere(b, x, y, dx, dy);
      } else {
        TryableFromNext(b, x, y, dx, dy, validDest);
        k := SearchFindsFirstExit(b, nx, ny, dx, dy, Opposite(b, nx, ny, dx, dy));
        FirstFromNext(b, x, y, dx, dy, validDest, k);
        ExitAtFromNext(b, x, y, dx, dy, k);
        k := if k == 0 then 0 else k + 1;
      }
    }
  }

  lemma FirstTry(b: BoardState, x: int, y: int, dx: int, dy: int, validDest: bool)
    requires Valid(b) && UnitStep(dx, dy) && InGrid(x + dx, y + dy) && Element(b, x + dx, y + dy) != E_BOARD_EDGE
    requires AllTryable(b, x, y, dx, dy, validDest)
    ensures var nx, ny := x + dx, y + dy;
      var t := Tried(b, nx, ny, dx, dy, validDest);
      && t.Done? && (validDest ==> t == Tried(b, nx, ny, dx, dy, true))
      && (validDest && Opens(b, nx, ny, dx, dy) ==> Walkable(Element(t.board, nx, ny)))
      && (!(validDest && Opens(b, nx, ny, dx, dy)) ==>
          t.board == b && !(validDest && Walkable(Element(b, nx, ny))) && !IsExit(b, x, y, dx, dy, validDest, 1))
  {
    FirstSquare(b, x, y, dx, dy, validDest);
    hide Clear, Valid, Push, Opens, UnitStep, IsTried, IsExit, Tryable;
    if validDest {
      TryOnce(b, x + dx, y + dy, dx, dy);
    }
  }

  lemma FirstSquare(b: BoardState, x: int, y: int, dx: int, dy: int, validDest: bool)
    requires Valid(b) && UnitStep(dx, dy) && InGrid(x + dx, y + dy) && Element(b, x + dx, y + dy) != E_BOARD_EDGE
    ensures IsExit(b, x, y, dx, dy, validDest, 1) <==> validDest && Opens(b, x + dx, y + dy, dx, dy)
    ensures validDest && AllTryable(b, x, y, dx, dy, validDest) ==>
      Walkable(Element(b, x + dx, y + dy)) || Clear(b, x + dx, y + dy, dx, dy)
  {
    SquareAhead(x, y, dx, dy, 0);
    assert Cell(b, x, y, dx, dy, 1) == Element(b, x + dx, y + dy);
    hide Clear, Opens, Valid, UnitStep;
    if validDest && AllTryable(b, x, y, dx, dy, validDest) {
      assert IsTried(b, x, y, dx, dy, validDest, 1);
      assert Tryable(b, x, y, dx, dy, 1);
    }
  }

  lemma FirstIsExit(b: BoardState, x: int, y: int, dx: int, dy: int)
    requires Valid(b) && UnitStep(dx, dy) && InGrid(x + dx, y + dy) && Opens(b, x + dx, y + dy, dx, dy)
    requires Element(b, x + dx, y + dy) != E_BOARD_EDGE
    ensures FirstExit(b, x, y, dx, dy, true, 1)
  {
    SquareAhead(x, y, dx, dy, 0);
    assert Cell(b, x, y, dx, dy, 1) == Element(b, x + dx, y + dy);
    hide Opens, Valid;
  }

  lemma EdgeStops(b: BoardState, x: int, y: int, dx: int, dy: int, validDest: bool)
    requires Valid(b) && UnitStep(dx, dy) && InGrid(x + dx, y + dy) && Element(b, x + dx, y + dy) == E_BOARD_EDGE
    ensures FirstExit(b, x, y, dx, dy, validDest, 0)
  {
    SquareAhead(x, y, dx, dy, 0);
    assert Cell(b, x, y, dx, dy, 1) == E_BOARD_EDGE;
    hide Opens, Opposite;
  }

  lemma StandsThere(b: BoardState, x: int, y: int)
    requires Valid(b) && StatAt(b, x, y) >= 0
    ensures b.stats[StatAt(b, x, y)].X == x && b.stats[StatAt(b, x, y)].Y == y
  {
  }
}
