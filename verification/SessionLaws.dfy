/** What each operation of an editing session does for the one who takes it, told in
    membership, rights, boards and holders (engine/editor_session.go). */
module SessionLaws {
  import opened GameVars
  import opened SessionSpec

  // ---- Boards ------------------------------------------------------------

  /** The board on record for a member: where its last operation ended. */
  predicate OnRecord(s: Session, m: Client, board: int) {
    m in s.memberBoard && m in s.memberInfo && s.memberBoard[m] == board == s.memberInfo[m].BoardID
  }

  predicate Exists(s: Session, board: int) { 0 <= board <= s.BoardCount }

  /** An operation finds the board on record open, or the title screen when it is gone. */
  lemma FindsBoardOnRecord(s: Session, m: Client)
    requires m in s.memberBoard
    ensures Focused(s, m).CurrentBoard == if Exists(s, s.memberBoard[m]) then s.memberBoard[m] else 0
    ensures Focused(s, m).BoardCount == s.BoardCount
  {
  }

  /** The member follows the engine, and its next operation finds the board the last one
      ended on; nothing else of the session changes. */
  lemma FollowsTheEngine(s: Session, m: Client, end: int, count: int)
    requires Valid(s) && m in s.Members
    ensures var r := Do(s, Apply(m, end, count));
      && OnRecord(r, m, end) && r.CurrentBoard == end && r.BoardCount == count
      && (0 <= end <= count ==> Focused(r, m).CurrentBoard == end)
      && SameBesidesBoards(s, r) && r.memberInfo[m] == s.memberInfo[m].(BoardID := end)
  {
    hide Inverse, IdsDistinct, Held;
  }

  predicate SameBesidesBoards(s: Session, r: Session) {
    && r.Members == s.Members && r.readOnly == s.readOnly && r.leases == s.leases
    && r.memberToken == s.memberToken && r.tokenMember == s.tokenMember && r.nextMember == s.nextMember
    && r.memberInfo.Keys == s.memberInfo.Keys
  }

  /** A new world that is refused leaves the member on the board it found, and the world. */
  lemma RefusedNewWorldStays(s: Session, m: Client)
    requires Valid(s) && m in s.Members && !PassesOwnGate(s, m)
    ensures var r := Do(s, NewWorld(m)); var found := if Exists(s, s.memberBoard[m]) then s.memberBoard[m] else 0;
      && OnRecord(r, m, found) && r.CurrentBoard == found && r.BoardCount == s.BoardCount && SameBesidesBoards(s, r)
  {
    hide Inverse, IdsDistinct, Held, PassesGate;
  }

  /** Some step of the run is a new world that passes its gate. */
  ghost predicate WorldRenewed(s: Session, steps: seq<Step>)
    requires Valid(s) && LegalRun(s, steps)
    decreases |steps|
  {
    steps != [] && (
      (steps[0].NewWorld? && steps[0].member in s.Members && PassesOwnGate(s, steps[0].member))
      || (StepKeepsValid(s, steps[0]); WorldRenewed(Do(s, steps[0]), steps[1..])))
  }

  /** Whatever the others do, a member that is still there afterwards is on record for
      the board it was on, or for the one board of a new world. */
  lemma {:induction false} StaysOnRecord(s: Session, n: Client, board: int, steps: seq<Step>)
    requires Valid(s) && LegalRun(s, steps) && OnRecord(s, n, board)
    requires forall i :: 0 <= i < |steps| ==> !Takes(steps[i], n)
    requires n in Run(s, steps).Members
    ensures OnRecord(Run(s, steps), n, if WorldRenewed(s, steps) then 0 else board)
    decreases |steps|
  {
    hide Do, Takes, Valid, PassesOwnGate;
    if steps != [] {
      StepKeepsValid(s, steps[0]);
      var r := Do(s, steps[0]);
      InAllOrNone(s, n);
      assert n in r.Members by {
        if n !in r.Members { NeverBack(r, n, steps[1..]); }
      }
      OthersKeepTheirBoard(s, steps[0], n);
      var newWorld := steps[0].NewWorld? && steps[0].member in s.Members && PassesOwnGate(s, steps[0].member);
      StaysOnRecord(r, n, if newWorld then 0 else board, steps[1..]);
    }
  }

  /** Nobody else brings a connection in. */
  lemma {:induction false} NeverBack(s: Session, n: Client, steps: seq<Step>)
    requires Valid(s) && LegalRun(s, steps) && n !in s.Members
    requires forall i :: 0 <= i < |steps| ==> !Takes(steps[i], n)
    ensures n !in Run(s, steps).Members
    decreases |steps|
  {
    hide Do, Valid;
    if steps != [] {
      StepKeepsValid(s, steps[0]);
      NobodySlipsIn(s, steps[0], n);
      NeverBack(Do(s, steps[0]), n, steps[1..]);
    }
  }

  /** An operation ends on a board; the others do what they like; the member's next
      operation finds that board as long as it exists, unless there is a new world. */
  lemma NextOperationFindsTheBoard(s: Session, n: Client, end: int, count: int, steps: seq<Step>)
    requires Valid(s) && n in s.Members && LegalRun(s, [Apply(n, end, count)] + steps)
    requires forall i :: 0 <= i < |steps| ==> !Takes(steps[i], n)
    requires n in Run(s, [Apply(n, end, count)] + steps).Members
    ensures var r := Run(s, [Apply(n, end, count)] + steps); var first := Do(s, Apply(n, end, count));
      && Valid(first) && LegalRun(first, steps)
      && Focused(r, n).CurrentBoard == if !WorldRenewed(first, steps) && Exists(r, end) then end else 0
  {
    var step := Apply(n, end, count);
    var all := [step] + steps;
    assert all[0] == step && all[1..] == steps;
    StepKeepsValid(s, step);
    FollowsTheEngine(s, n, end, count);
    hide Do, Valid, Focused, WorldRenewed;
    StaysOnRecord(Do(s, step), n, end, steps);
    FindsBoardOnRecord(Run(s, all), n);
  }

  // ---- Rights ------------------------------------------------------------

  /** A newcomer may edit, stands in the middle of the board the engine has open, holds
      nothing, and has the next number; nobody else is touched. */
  lemma NewcomerStarts(s: Session, m: Client, name: string, token: string, minted: string)
    requires Valid(s) && Fresh(s, minted) && m !in s.Members && !Resumable(s, m, token)
    ensures var r := Do(s, Enter(m, name, token, minted));
      && r.Members == s.Members + {m} && CanEdit(r, m) && OnRecord(r, m, s.CurrentBoard)
      && r.memberInfo[m].ID == r.nextMember == s.nextMember + 1
      && r.memberInfo[m].X == 30 && r.memberInfo[m].Y == 12
      && r.memberInfo[m].Name == (if name != "" then name else "Player " + Decimal(s.nextMember + 1))
      && r.memberInfo[m].Color == [0x0e, 0x0a, 0x0d, 0x0c, 0x09, 0x03, 0x06, 0x05][s.nextMember % 8]
      && r.leases == s.leases && r.CurrentBoard == s.CurrentBoard && r.BoardCount == s.BoardCount
      && (forall n :: n in s.Members ==> (CanEdit(r, n) <==> CanEdit(s, n)) && r.memberInfo[n].ID != r.memberInfo[m].ID)
  {
    hide Held, Inverse, Decimal, Resumable;
  }

  /** Its token is good for every other connection of its account, and for nobody else. */
  lemma NewcomersToken(s: Session, m: Client, name: string, token: string, minted: string, n: Client)
    requires Valid(s) && Fresh(s, minted) && m !in s.Members && !Resumable(s, m, token)
    ensures Resumable(Do(s, Enter(m, name, token, minted)), n, minted) <==> n != m && n.accountID == m.accountID
  {
    hide Held, Inverse, IdsDistinct, NewPresence;
  }

  /** A member's rights are what it was last told, and only losing them costs its leases. */
  lemma RightsOfMember(s: Session, m: Client, flag: bool, n: Client, key: LeaseKey)
    requires Valid(s)
    ensures var r := Do(s, SetMemberReadOnly(m, flag));
      && (CanEdit(r, n) <==> n in s.Members && (if n == m then !flag else CanEdit(s, n)))
      && (key in r.leases <==> key in s.leases && !(flag && s.leases[key] == m))
      && (key in r.leases ==> r.leases[key] == s.leases[key])
      && r.Members == s.Members && r.memberBoard == s.memberBoard && r.memberInfo == s.memberInfo
  {
    hide Inverse, IdsDistinct;
    LeasesHeld(s, key);
  }

  lemma LeasesHeld(s: Session, key: LeaseKey)
    requires Valid(s)
    ensures key in s.leases ==> s.leases[key] in s.Members
  {
  }

  /** An account's rights reach all its members and nobody without an account. */
  lemma RightsOfAccount(s: Session, account: string, flag: bool, n: Client)
    requires Valid(s)
    ensures var r := Do(s, SetAccountReadOnly(account, flag));
      && (CanEdit(r, n) <==>
            n in s.Members && (if account != "" && n.accountID == account then !flag else CanEdit(s, n)))
      && r.leases == s.leases && r.Members == s.Members && r.memberBoard == s.memberBoard
  {
    hide Inverse, IdsDistinct;
  }

  /** Alone, an editor needs no lease; in company, it needs its own. */
  lemma GateOpens(s: Session, m: Client, key: LeaseKey)
    requires Valid(s) && m in s.Members
    ensures s.Members == {m} ==> (PassesGate(s, m, key) <==> !s.readOnly[m])
    ensures (exists n :: n in s.Members && n != m) ==>
      (PassesGate(s, m, key) <==> !s.readOnly[m] && key in s.leases && s.leases[key] == m)
  {
    if n :| n in s.Members && n != m {
      Smaller({m, n}, s.Members);
      assert |{m, n}| == 2;
    }
  }

  // ---- Leases ------------------------------------------------------------

  /** A request names a board that exists: the one asked for, or else the member's own;
      and a program by its number in 0..150. */
  lemma RequestNames(s: Session, m: Client, r: Request)
    requires Valid(s) && m in s.Members
    ensures var board := if Exists(s, r.boardID) then r.boardID else s.memberBoard[m];
      LeaseKeyOf(s, m, r) ==
        if Exists(s, board) && r.kind == "board" then Some(BoardLease(board))
        else if Exists(s, board) && r.kind == "stat" && 0 <= r.statID <= 150 then Some(StatLease(board, r.statID))
        else None
  {
  }

  /** Who asks gets a free lease or keeps its own; every other lease stays as it was. */
  lemma LeaseTaken(s: Session, m: Client, r: Request, key: LeaseKey)
    requires Valid(s)
    ensures var a := Do(s, AcquireLease(m, r)); var named := LeaseKeyOf(s, m, r) == Some(key);
      && (named && CanEdit(s, m) && (key in s.leases ==> s.leases[key] == m) ==> key in a.leases && a.leases[key] == m)
      && (!(named && CanEdit(s, m)) || (key in s.leases && s.leases[key] != m) ==>
            (key in a.leases <==> key in s.leases) && (key in a.leases ==> a.leases[key] == s.leases[key]))
      && a.Members == s.Members && a.readOnly == s.readOnly && a.memberBoard == s.memberBoard
  {
    hide Inverse, IdsDistinct, Held, LeaseKeyOf;
  }

  /** Only its holder gives a lease back, by name or by leaving. */
  lemma LeaseGivenBack(s: Session, m: Client, r: Request, key: LeaseKey)
    requires Valid(s) && key in s.leases
    ensures key !in Do(s, ReleaseLease(m, r)).leases <==> LeaseKeyOf(s, m, r) == Some(key) && s.leases[key] == m
    ensures key !in Do(s, Exit(m)).leases <==> s.leases[key] == m
    ensures forall n :: n in Do(s, Exit(m)).Members <==> n in s.Members && n != m
    ensures m in s.Members ==> forall n :: !Resumable(Do(s, Exit(m)), n, s.memberToken[m])
  {
    hide IdsDistinct, Held, LeaseKeyOf;
  }

  // ---- Cursors -----------------------------------------------------------

  /** A cursor inside 1..60 by 1..25 is where it was put, any other at the nearest such place. */
  lemma CursorPlaced(s: Session, m: Client, x: int, y: int)
    requires Valid(s) && m in s.Members
    ensures var p := Do(s, UpdatePresence(m, x, y)).memberInfo[m];
      && 1 <= p.X <= 60 && 1 <= p.Y <= 25
      && (p.X < x ==> p.X == 60) && (p.X > x ==> p.X == 1) && (p.Y < y ==> p.Y == 25) && (p.Y > y ==> p.Y == 1)
      && p == s.memberInfo[m].(X := p.X, Y := p.Y)
    ensures forall n :: n in s.Members && n != m ==> Do(s, UpdatePresence(m, x, y)).memberInfo[n] == s.memberInfo[n]
  {
    hide Inverse, IdsDistinct, Held;
  }
}
