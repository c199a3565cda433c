/** Membership, tokens, rights and leases of a collaborative editing session
    (engine/editor_session.go). Each method is one critical section; `Session` is
    the value its fields hold. */
module SessionSpec {
  import opened GameVars

  /** A connection, and the account it is signed in as ("" for none). */
  datatype Client = Client(id: nat, accountID: string)

  /** ID is the n of "editor-n". */
  datatype Presence = Presence(ID: nat, Name: string, Color: nat, BoardID: int, X: int, Y: int)

  datatype LeaseKey = BoardLease(boardID: int) | StatLease(boardID: int, statID: int)

  datatype Session = Session(
    Members: set<Client>,
    memberInfo: map<Client, Presence>,
    readOnly: map<Client, bool>,
    nextMember: nat,
    leases: map<LeaseKey, Client>,
    memberBoard: map<Client, int>,
    memberToken: map<Client, string>,
    tokenMember: map<string, Client>,
    CurrentBoard: int,   // the board the shared engine has open
    BoardCount: int)

  /** The member maps have one domain; members and tokens are inverse to each other;
      presence ids are distinct; every holder of a lease is a member. */
  ghost predicate Valid(s: Session) {
    && SameDomain(s)
    && Inverse(s.memberToken, s.tokenMember)
    && IdsDistinct(s.memberInfo, s.nextMember)
    && Held(s.leases, s.Members)
  }

  ghost predicate SameDomain(s: Session) {
    s.memberInfo.Keys == s.readOnly.Keys == s.memberBoard.Keys == s.memberToken.Keys == s.Members
  }

  ghost predicate Inverse(tokens: map<Client, string>, members: map<string, Client>) {
    && "" !in members
    && (forall m :: m in tokens ==> tokens[m] in members && members[tokens[m]] == m)
    && forall t :: t in members ==> members[t] in tokens && tokens[members[t]] == t
  }

  ghost predicate IdsDistinct(info: map<Client, Presence>, last: nat) {
    && (forall m :: m in info ==> 1 <= info[m].ID <= last)
    && forall m, n :: m in info && n in info && info[m].ID == info[n].ID ==> m == n
  }

  ghost predicate Held(leases: map<LeaseKey, Client>, members: set<Client>) {
    forall k :: k in leases ==> leases[k] in members
  }

  // ---- Entering and leaving ----------------------------------------------

  const PRESENCE_COLORS: seq<nat> := [0x0e, 0x0a, 0x0d, 0x0c, 0x09, 0x03, 0x06, 0x05]

  function PresenceColor(n: nat): nat
    requires n >= 1
  {
    PRESENCE_COLORS[(n - 1) % 8]
  }

  /** An entry without a name is called after its number. */
  function NameOf(name: string, n: nat): string { if name == "" then "Player " + Decimal(n) else name }

  function NewPresence(n: nat, name: string, board: int): Presence
    requires n >= 1
  {
    Presence(n, NameOf(name, n), PresenceColor(n), board, BOARD_WIDTH / 2, BOARD_HEIGHT / 2)
  }

  function Admitted(s: Session, m: Client, name: string, minted: string): Session {
    var n := s.nextMember + 1;
    s.(nextMember := n,
       Members := s.Members + {m},
       memberInfo := s.memberInfo[m := NewPresence(n, name, s.CurrentBoard)],
       readOnly := s.readOnly[m := false],
       memberBoard := s.memberBoard[m := s.CurrentBoard],
       memberToken := s.memberToken[m := minted],
       tokenMember := s.tokenMember[minted := m])
  }

  /** The token names a membership that this connection may take over. */
  predicate Resumable(s: Session, m: Client, token: string) {
    && token != "" && token in s.tokenMember && s.tokenMember[token] != m
    && s.tokenMember[token].accountID == m.accountID
  }

  function Transferred(leases: map<LeaseKey, Client>, from: Client, to: Client): map<LeaseKey, Client> {
    map k | k in leases :: if leases[k] == from then to else leases[k]
  }

  function Renamed(p: Presence, name: string): Presence {
    if name != "" then p.(Name := name) else p
  }

  function Resumed(s: Session, m: Client, name: string, token: string): Session
    requires Resumable(s, m, token)
    requires var p := s.tokenMember[token]; p in s.memberInfo && p in s.readOnly && p in s.memberBoard
  {
    var p := s.tokenMember[token];
    s.(Members := s.Members - {p} + {m},
       memberInfo := (s.memberInfo - {p})[m := Renamed(s.memberInfo[p], name)],
       readOnly := (s.readOnly - {p})[m := s.readOnly[p]],
       memberBoard := (s.memberBoard - {p})[m := s.memberBoard[p]],
       memberToken := (s.memberToken - {p})[m := token],
       tokenMember := s.tokenMember[token := m],
       leases := Transferred(s.leases, p, m))
  }

  function Released(leases: map<LeaseKey, Client>, m: Client): map<LeaseKey, Client> {
    map k | k in leases && leases[k] != m :: leases[k]
  }

  /** The token index without the member's token, unless it has passed to another. */
  function TokensWithout(tokens: map<Client, string>, members: map<string, Client>, m: Client): map<string, Client> {
    if m in tokens && tokens[m] in members && members[tokens[m]] == m then members - {tokens[m]} else members
  }

  function Exited(s: Session, m: Client): Session {
    s.(Members := s.Members - {m},
       memberInfo := s.memberInfo - {m},
       readOnly := s.readOnly - {m},
       memberBoard := s.memberBoard - {m},
       memberToken := s.memberToken - {m},
       tokenMember := TokensWithout(s.memberToken, s.tokenMember, m),
       leases := Released(s.leases, m))
  }

  // ---- Rights and leases -------------------------------------------------

  predicate CanEdit(s: Session, m: Client) {
    m in s.Members && m in s.readOnly && !s.readOnly[m]
  }

  function MemberReadOnly(s: Session, m: Client, readOnly: bool): Session {
    if m !in s.Members then s
    else s.(readOnly := s.readOnly[m := readOnly], leases := if readOnly then Released(s.leases, m) else s.leases)
  }

  /** Rights change for every member of the account; leases do not. */
  function AccountReadOnly(s: Session, account: string, readOnly: bool): Session {
    if account == "" then s
    else
      s.(readOnly := map m | m in s.readOnly ::
           if m in s.Members && m.accountID == account then readOnly else s.readOnly[m])
  }

  datatype Request = Request(kind: string, boardID: int, statID: int)

  function LeaseKeyOf(s: Session, m: Client, r: Request): Option<LeaseKey> {
    var own := if m in s.memberBoard then s.memberBoard[m] else s.CurrentBoard;
    var board := if 0 <= r.boardID <= s.BoardCount then r.boardID else own;
    if board < 0 || board > s.BoardCount then None
    else if r.kind == "board" then Some(BoardLease(board))
    else if r.kind == "stat" then if 0 <= r.statID <= MAX_STAT then Some(StatLease(board, r.statID)) else None
    else None
  }

  datatype Reply = NotAMember | NoSuchThing | Granted | ReadOnly | HeldBy(id: nat, name: string)

  function AcquireReply(s: Session, m: Client, r: Request): Reply {
    if m !in s.Members then NotAMember
    else
      match LeaseKeyOf(s, m, r)
      case None => NoSuchThing
      case Some(key) =>
        if !CanEdit(s, m) then ReadOnly
        else if key in s.leases && s.leases[key] != m then
          (if s.leases[key] in s.memberInfo
              then HeldBy(s.memberInfo[s.leases[key]].ID, s.memberInfo[s.leases[key]].Name) else HeldBy(0, ""))
        else Granted
  }

  function Acquired(s: Session, m: Client, r: Request): Session {
    if AcquireReply(s, m, r).Granted? && LeaseKeyOf(s, m, r).Some?
        then s.(leases := s.leases[LeaseKeyOf(s, m, r).value := m]) else s
  }

  function LeaseReleased(s: Session, m: Client, r: Request): Session {
    match LeaseKeyOf(s, m, r)
    case None => s
    case Some(key) => if key in s.leases && s.leases[key] == m then s.(leases := s.leases - {key}) else s
  }

  /** The gate of a board-wide or a stat operation: a lone member needs no lease. */
  predicate PassesGate(s: Session, m: Client, key: LeaseKey) {
    CanEdit(s, m) && (|s.Members| <= 1 || (key in s.leases && s.leases[key] == m))
  }

  // ---- Boards and cursors ------------------------------------------------

  function MovedTo(s: Session, m: Client, board: int): Session {
    s.(memberBoard := s.memberBoard[m := board],
       memberInfo := if m in s.memberInfo then s.memberInfo[m := s.memberInfo[m].(BoardID := board)] else s.memberInfo)
  }

  /** The board an operation of m finds open, and the session with the engine on it. */
  function Focused(s: Session, m: Client): Session {
    if m !in s.memberBoard then s.(memberBoard := s.memberBoard[m := s.CurrentBoard])
    else
      var board := if s.memberBoard[m] < 0 || s.memberBoard[m] > s.BoardCount then 0 else s.memberBoard[m];
      s.(memberBoard := s.memberBoard[m := board], CurrentBoard := board)
  }

  /** Apply, where the operation leaves the engine on board `end` of `count` boards. */
  function Applied(s: Session, m: Client, end: int, count: int): Session {
    if m !in s.Members then s else MovedTo(Focused(s, m).(CurrentBoard := end, BoardCount := count), m, end)
  }

  /** The member passes the lease gate of the board its operation finds open. */
  predicate PassesOwnGate(s: Session, m: Client) {
    var f := Focused(s, m);
    PassesGate(f, m, BoardLease(f.CurrentBoard))
  }

  /** Every member is put on one board. */
  function Gathered(s: Session, board: int): Session {
    s.(memberBoard := map n | n in s.Members :: board,
       memberInfo := map n | n in s.memberInfo :: s.memberInfo[n].(BoardID := board))
  }

  /** NewWorld, an operation under Apply: behind the board's gate, a world with the one
      board 0, and everybody on it. */
  function Renewed(s: Session, m: Client): Session {
    if m !in s.Members then s
    else
      var f := Focused(s, m);
      if PassesGate(f, m, BoardLease(f.CurrentBoard)) then Gathered(f.(CurrentBoard := 0, BoardCount := 0), 0)
      else MovedTo(f, m, f.CurrentBoard)
  }

  function Clamp(x: int, limit: int): int { if x < 1 then 1 else if x > limit then limit else x }

  function Pointed(s: Session, m: Client, x: int, y: int): Session {
    if m !in s.memberInfo then s
    else s.(memberInfo := s.memberInfo[m := s.memberInfo[m].(X := Clamp(x, BOARD_WIDTH), Y := Clamp(y, BOARD_HEIGHT))])
  }

  // ---- Every run ---------------------------------------------------------

  datatype Step =
    | Enter(member: Client, name: string, token: string, minted: string)
    | Exit(member: Client)
    | SetMemberReadOnly(member: Client, flag: bool)
    | SetAccountReadOnly(account: string, flag: bool)
    | AcquireLease(member: Client, request: Request)
    | ReleaseLease(member: Client, request: Request)
    | Apply(member: Client, end: int, count: int)
    | NewWorld(member: Client)
    | UpdatePresence(member: Client, x: int, y: int)

  /** A minted token is not in use and not empty. */
  predicate Fresh(s: Session, minted: string) { minted != "" && minted !in s.tokenMember }

  ghost function Entered(s: Session, m: Client, name: string, token: string, minted: string): Session
    requires Valid(s)
  {
    if m in s.Members then s
    else if Resumable(s, m, token) then Resumed(s, m, name, token)
    else Admitted(s, m, name, minted)
  }

  ghost function Do(s: Session, step: Step): Session
    requires Valid(s)
  {
    match step
    case Enter(m, name, token, minted) => Entered(s, m, name, token, minted)
    case Exit(m) => Exited(s, m)
    case SetMemberReadOnly(m, flag) => MemberReadOnly(s, m, flag)
    case SetAccountReadOnly(account, flag) => AccountReadOnly(s, account, flag)
    case AcquireLease(m, r) => Acquired(s, m, r)
    case ReleaseLease(m, r) => LeaseReleased(s, m, r)
    case Apply(m, end, count) => Applied(s, m, end, count)
    case NewWorld(m) => Renewed(s, m)
    case UpdatePresence(m, x, y) => Pointed(s, m, x, y)
  }

  lemma InverseAdded(tokens: map<Client, string>, members: map<string, Client>, m: Client, t: string)
    requires Inverse(tokens, members) && m !in tokens && t !in members && t != ""
    ensures Inverse(tokens[m := t], members[t := m])
  {
  }

  lemma InverseMoved(tokens: map<Client, string>, members: map<string, Client>, p: Client, m: Client, t: string)
    requires Inverse(tokens, members) && t in members && members[t] == p && m !in tokens
    ensures Inverse((tokens - {p})[m := t], members[t := m])
  {
    var a, b := (tokens - {p})[m := t], members[t := m];
    forall n | n in a
      ensures a[n] in b && b[a[n]] == n
    {
      assert n != m ==> n in tokens && a[n] == tokens[n];
    }
    forall u | u in b
      ensures b[u] in a && a[b[u]] == u
    {
      assert u != t ==> u in members && b[u] == members[u];
    }
  }

  lemma InverseDropped(tokens: map<Client, string>, members: map<string, Client>, m: Client)
    requires Inverse(tokens, members) && m in tokens
    ensures Inverse(tokens - {m}, members - {tokens[m]})
  {
  }

  lemma KeysMoved<V>(a: map<Client, V>, p: Client, m: Client, v: V)
    ensures (a - {p})[m := v].Keys == a.Keys - {p} + {m}
  {
  }

  lemma KeysAdded<V>(a: map<Client, V>, m: Client, v: V)
    ensures a[m := v].Keys == a.Keys + {m}
  {
  }

  lemma IdsMoved(info: map<Client, Presence>, last: nat, p: Client, m: Client, name: string)
    requires IdsDistinct(info, last) && p in info && m !in info
    ensures IdsDistinct((info - {p})[m := Renamed(info[p], name)], last)
  {
    var r := (info - {p})[m := Renamed(info[p], name)];
    forall a, b | a in r && b in r && r[a].ID == r[b].ID
      ensures a == b
    {
      var x, y := if a == m then p else a, if b == m then p else b;
      assert x in info && y in info && info[x].ID == r[a].ID && info[y].ID == r[b].ID;
    }
  }

  lemma IdsAdded(info: map<Client, Presence>, last: nat, m: Client, p: Presence)
    requires IdsDistinct(info, last) && m !in info && p.ID == last + 1
    ensures IdsDistinct(info[m := p], last + 1)
  {
  }

  lemma IdsDropped(info: map<Client, Presence>, last: nat, m: Client)
    requires IdsDistinct(info, last)
    ensures IdsDistinct(info - {m}, last)
  {
  }

  lemma AdmittedValid(s: Session, m: Client, name: string, minted: string)
    requires Valid(s) && m !in s.Members && Fresh(s, minted)
    ensures Valid(Admitted(s, m, name, minted))
  {
    hide Inverse, IdsDistinct;
    var r := Admitted(s, m, name, minted);
    assert minted != "" && m !in s.memberToken && m !in s.memberInfo;
    IdsAdded(s.memberInfo, s.nextMember, m, r.memberInfo[m]);
    InverseAdded(s.memberToken, s.tokenMember, m, minted);
    KeysAdded(s.memberInfo, m, r.memberInfo[m]);
    KeysAdded(s.readOnly, m, false);
    KeysAdded(s.memberBoard, m, s.CurrentBoard);
    KeysAdded(s.memberToken, m, minted);
    assert Held(r.leases, r.Members);
  }

  lemma ResumedValid(s: Session, m: Client, name: string, token: string)
    requires Valid(s) && m !in s.Members && Resumable(s, m, token)
    ensures Valid(Resumed(s, m, name, token))
  {
    var p, r := s.tokenMember[token], Resumed(s, m, name, token);
    InverseMoved(s.memberToken, s.tokenMember, p, m, token);
    assert p in s.memberToken;
    hide Inverse, IdsDistinct;
    IdsMoved(s.memberInfo, s.nextMember, p, m, name);
    KeysMoved(s.memberInfo, p, m, Renamed(s.memberInfo[p], name));
    KeysMoved(s.readOnly, p, m, s.readOnly[p]);
    KeysMoved(s.memberBoard, p, m, s.memberBoard[p]);
    KeysMoved(s.memberToken, p, m, token);
    assert Held(r.leases, r.Members);
  }

  lemma ExitedValid(s: Session, m: Client)
    requires Valid(s)
    ensures Valid(Exited(s, m))
  {
    hide Inverse, IdsDistinct;
    var r := Exited(s, m);
    IdsDropped(s.memberInfo, s.nextMember, m);
    if m in s.Members {
      InverseDropped(s.memberToken, s.tokenMember, m);
      TokenOf(s, m);
    } else {
      assert s.memberToken - {m} == s.memberToken;
    }
    assert Held(r.leases, r.Members);
    KeysDropped(s.memberInfo, m);
    KeysDropped(s.readOnly, m);
    KeysDropped(s.memberBoard, m);
    KeysDropped(s.memberToken, m);
  }

  lemma TokenOf(s: Session, m: Client)
    requires Valid(s) && m in s.Members
    ensures s.memberToken[m] in s.tokenMember && s.tokenMember[s.memberToken[m]] == m
  {
  }

  lemma KeysDropped<V>(a: map<Client, V>, m: Client)
    ensures (a - {m}).Keys == a.Keys - {m}
  {
  }

  lemma KeysKept<V>(a: map<Client, V>, m: Client, v: V)
    requires m in a
    ensures a[m := v].Keys == a.Keys
  {
  }

  /** A step that lets nobody in or out and moves no token. */
  lemma RestValid(s: Session, r: Session)
    requires Valid(s) && r.Members == s.Members && r.memberInfo.Keys == s.memberInfo.Keys
    requires r.readOnly.Keys == s.readOnly.Keys && r.memberBoard.Keys == s.memberBoard.Keys
    requires r.memberToken == s.memberToken && r.tokenMember == s.tokenMember && r.nextMember == s.nextMember
    requires forall m :: m in s.memberInfo ==> r.memberInfo[m].ID == s.memberInfo[m].ID
    requires forall k :: k in r.leases ==> r.leases[k] in s.Members
    ensures Valid(r)
  {
    hide Inverse;
  }

  lemma RightsValid(s: Session, step: Step)
    requires Valid(s) && (step.SetMemberReadOnly? || step.SetAccountReadOnly?)
    ensures Valid(Do(s, step))
  {
    hide Inverse, IdsDistinct;
    var r := Do(s, step);
    match step {
      case SetMemberReadOnly(m, flag) =>
        if m in s.Members {
          KeysKept(s.readOnly, m, flag);
        }
      case SetAccountReadOnly(account, flag) =>
        assert r.readOnly.Keys == s.readOnly.Keys;
    }
    RestValid(s, r);
  }

  lemma LeaseValid(s: Session, step: Step)
    requires Valid(s) && (step.AcquireLease? || step.ReleaseLease?)
    ensures Valid(Do(s, step))
  {
    hide Inverse, IdsDistinct, LeaseKeyOf;
    RestValid(s, Do(s, step));
  }

  lemma FocusedValid(s: Session, m: Client)
    requires Valid(s) && m in s.Members
    ensures Valid(Focused(s, m)) && Focused(s, m).Members == s.Members
  {
    hide Inverse, IdsDistinct;
    KeysKept(s.memberBoard, m, Focused(s, m).memberBoard[m]);
    RestValid(s, Focused(s, m));
  }

  lemma MovedValid(s: Session, m: Client, board: int, count: int)
    requires Valid(s) && m in s.Members
    ensures Valid(MovedTo(s.(CurrentBoard := board, BoardCount := count), m, board))
  {
    hide Inverse, IdsDistinct;
    KeysKept(s.memberBoard, m, board);
    KeysKept(s.memberInfo, m, s.memberInfo[m].(BoardID := board));
    RestValid(s, MovedTo(s.(CurrentBoard := board, BoardCount := count), m, board));
  }

  lemma GatheredValid(s: Session)
    requires Valid(s)
    ensures Valid(Gathered(s.(CurrentBoard := 0, BoardCount := 0), 0))
  {
    hide Inverse, IdsDistinct;
    var r := Gathered(s.(CurrentBoard := 0, BoardCount := 0), 0);
    assert r.memberBoard.Keys == s.memberBoard.Keys && r.memberInfo.Keys == s.memberInfo.Keys;
    RestValid(s, r);
  }

  /** The member who made the new world is on its board already. */
  lemma GatheredAgain(s: Session, m: Client)
    requires Valid(s) && m in s.Members
    ensures var r := Gathered(s.(CurrentBoard := 0, BoardCount := 0), 0);
      MovedTo(r, m, 0) == r && r.CurrentBoard == 0
  {
    hide Inverse, IdsDistinct;
    var r := Gathered(s.(CurrentBoard := 0, BoardCount := 0), 0);
    assert r.memberBoard[m := 0] == r.memberBoard;
    assert r.memberInfo[m := r.memberInfo[m].(BoardID := 0)] == r.memberInfo;
  }

  lemma AppliedValid(s: Session, m: Client, end: int, count: int)
    requires Valid(s)
    ensures Valid(Applied(s, m, end, count))
  {
    hide Valid, Focused, MovedTo;
    if m in s.Members {
      FocusedValid(s, m);
      MovedValid(Focused(s, m), m, end, count);
    }
  }

  lemma RenewedValid(s: Session, m: Client)
    requires Valid(s)
    ensures Valid(Renewed(s, m))
  {
    hide Valid, Focused, Gathered, MovedTo, PassesGate;
    if m in s.Members {
      var f := Focused(s, m);
      FocusedValid(s, m);
      GatheredValid(f);
      MovedValid(f, m, f.CurrentBoard, f.BoardCount);
    }
  }

  lemma PointedValid(s: Session, m: Client, x: int, y: int)
    requires Valid(s)
    ensures Valid(Pointed(s, m, x, y))
  {
    hide Inverse, IdsDistinct, Clamp;
    if m in s.Members {
      KeysKept(s.memberInfo, m, Pointed(s, m, x, y).memberInfo[m]);
      RestValid(s, Pointed(s, m, x, y));
    }
  }

  lemma StepKeepsValid(s: Session, step: Step)
    requires Valid(s) && (step.Enter? ==> Fresh(s, step.minted))
    ensures Valid(Do(s, step))
  {
    match step
    case Enter(m, name, token, minted) =>
      if m !in s.Members {
        if Resumable(s, m, token) {
          ResumedValid(s, m, name, token);
        } else {
          AdmittedValid(s, m, name, minted);
        }
      }
    case Exit(m) => ExitedValid(s, m);
    case Apply(m, end, count) => AppliedValid(s, m, end, count);
    case NewWorld(m) => RenewedValid(s, m);
    case UpdatePresence(m, x, y) => PointedValid(s, m, x, y);
    case AcquireLease(_, _) => LeaseValid(s, step);
    case ReleaseLease(_, _) => LeaseValid(s, step);
    case _ => RightsValid(s, step);
  }

  lemma EnteredValid(s: Session, m: Client, name: string, token: string, minted: string)
    requires Valid(s) && Fresh(s, minted)
    ensures Valid(Entered(s, m, name, token, minted))
  {
    StepKeepsValid(s, Enter(m, name, token, minted));
  }

  lemma EnteredIsIn(s: Session, m: Client, name: string, token: string, minted: string)
    requires Valid(s) && Fresh(s, minted)
    ensures m in Entered(s, m, name, token, minted).Members
    ensures m !in s.Members && !Resumable(s, m, token) ==> Entered(s, m, name, token, minted).memberToken[m] == minted
  {
    EnteredValid(s, m, name, token, minted);
  }

  /** A connection is in every member map or in none. */
  lemma InAllOrNone(s: Session, m: Client)
    requires Valid(s)
    ensures m in s.Members <==> m in s.memberInfo
    ensures m in s.Members <==> m in s.readOnly
    ensures m in s.Members <==> m in s.memberBoard
    ensures m in s.Members <==> m in s.memberToken
  {
  }

  lemma DomainsAgree(s: Session)
    requires Valid(s)
    ensures s.memberBoard.Keys == s.memberInfo.Keys == s.Members
  {
  }

  lemma RightsDomain(s: Session)
    requires Valid(s)
    ensures s.readOnly.Keys == s.Members
  {
  }

  lemma TokenHolder(s: Session, token: string)
    requires Valid(s) && token in s.tokenMember
    ensures s.tokenMember[token] in s.Members
  {
    assert s.tokenMember[token] in s.memberToken;
  }

  lemma LeaseHolder(s: Session, key: LeaseKey)
    requires Valid(s) && key in s.leases
    ensures s.leases[key] in s.Members
  {
  }

  lemma SameSession(a: Session, b: Session)
    requires a.Members == b.Members && a.memberInfo == b.memberInfo && a.readOnly == b.readOnly
    requires a.nextMember == b.nextMember && a.leases == b.leases && a.memberBoard == b.memberBoard
    requires a.memberToken == b.memberToken && a.tokenMember == b.tokenMember
    requires a.CurrentBoard == b.CurrentBoard && a.BoardCount == b.BoardCount
    ensures a == b
  {
  }

  function NewSession(board: int, boards: int): Session {
    Session({}, map[], map[], 0, map[], map[], map[], map[], board, boards)
  }

  /** Every token handed out along the run is fresh when it is handed out. */
  ghost predicate LegalRun(s: Session, steps: seq<Step>)
    requires Valid(s)
    decreases |steps|
  {
    steps != [] ==>
      && (steps[0].Enter? ==> Fresh(s, steps[0].minted))
      && (StepKeepsValid(s, steps[0]); LegalRun(Do(s, steps[0]), steps[1..]))
  }

  ghost function Run(s: Session, steps: seq<Step>): (r: Session)
    requires Valid(s) && LegalRun(s, steps)
    ensures Valid(r)
    decreases |steps|
  {
    if steps == [] then s else
      StepKeepsValid(s, steps[0]);
      Run(Do(s, steps[0]), steps[1..])
  }

  // ---- What the session promises -----------------------------------------

  /** For every board and every stat, at most one connection passes the lease gate. */
  lemma AtMostOnePasses(s: Session, m: Client, n: Client, key: LeaseKey)
    requires Valid(s) && PassesGate(s, m, key) && PassesGate(s, n, key)
    ensures m == n
  {
    if |s.Members| <= 1 && m != n {
      assert {m, n} <= s.Members;
      assert |{m, n}| == 2;
      Smaller({m, n}, s.Members);
    }
  }

  lemma {:induction false} Smaller<T>(a: set<T>, b: set<T>)
    requires a <= b
    ensures |a| <= |b|
  {
    if a != {} {
      var x :| x in a;
      Smaller(a - {x}, b - {x});
    }
  }

  /** A resume is a change of connection and of nothing else: the newcomer has the
      id, colour, board, cursor, rights and leases of the membership it takes over,
      and the displaced connection is out. */
  lemma ResumeHandsOver(s: Session, m: Client, name: string, token: string)
    requires Valid(s) && m !in s.Members && Resumable(s, m, token)
    ensures var p, r := s.tokenMember[token], Resumed(s, m, name, token);
      && p in s.Members && m in r.Members && p !in r.Members && |r.Members| == |s.Members|
      && r.memberInfo[m] == s.memberInfo[p].(Name := if name != "" then name else s.memberInfo[p].Name)
      && r.memberBoard[m] == s.memberBoard[p]
      && (CanEdit(r, m) <==> CanEdit(s, p)) && r.tokenMember[token] == m && r.nextMember == s.nextMember
      && (forall n :: n != m && n != p ==> (CanEdit(r, n) <==> CanEdit(s, n)))
      && r.leases.Keys == s.leases.Keys
      && forall key :: key in s.leases ==>
        (s.leases[key] == p && r.leases[key] == m) || (s.leases[key] != p && r.leases[key] == s.leases[key] != m)
  {
    var p, r := s.tokenMember[token], Resumed(s, m, name, token);
    assert p in s.memberToken;
    hide Inverse, IdsDistinct;
    assert |s.Members - {p} + {m}| == |s.Members|;
  }

  /** So the newcomer passes exactly the gates the displaced connection passed, and
      nobody else's gates change. */
  lemma ResumeKeepsGates(s: Session, m: Client, name: string, token: string, key: LeaseKey, n: Client)
    requires Valid(s) && m !in s.Members && Resumable(s, m, token) && n != m
    ensures var p, r := s.tokenMember[token], Resumed(s, m, name, token);
      && (PassesGate(r, m, key) <==> PassesGate(s, p, key))
      && (n != p ==> (PassesGate(r, n, key) <==> PassesGate(s, n, key)))
  {
    ResumeHandsOver(s, m, name, token);
    hide Valid, Resumed, CanEdit;
  }

  /** Leaving changes the session exactly when a member leaves; in particular the late
      exit of a displaced connection changes nothing. */
  lemma ExitOfStranger(s: Session, m: Client)
    requires Valid(s)
    ensures Exited(s, m) == s <==> m !in s.Members
  {
    hide Inverse, IdsDistinct;
    if m !in s.Members {
      assert Released(s.leases, m) == s.leases;
      NothingDropped(s.memberInfo, m);
      NothingDropped(s.readOnly, m);
      NothingDropped(s.memberBoard, m);
      NothingDropped(s.memberToken, m);
    }
  }

  lemma NothingDropped<V>(a: map<Client, V>, m: Client)
    requires m !in a
    ensures a - {m} == a
  {
  }

  /** Whatever the others do meanwhile, as long as the displaced connection does not
      enter again. */
  lemma {:induction false} DisplacedStaysOut(s: Session, p: Client, steps: seq<Step>)
    requires Valid(s) && p !in s.Members && LegalRun(s, steps)
    requires forall i :: 0 <= i < |steps| && steps[i].Enter? ==> steps[i].member != p
    ensures p !in Run(s, steps).Members && Do(Run(s, steps), Exit(p)) == Run(s, steps)
    decreases |steps|
  {
    if steps == [] {
      ExitOfStranger(s, p);
    } else {
      StepKeepsValid(s, steps[0]);
      assert p !in Do(s, steps[0]).Members by {
        NobodySlipsIn(s, steps[0], p);
      }
      DisplacedStaysOut(Do(s, steps[0]), p, steps[1..]);
    }
  }

  lemma NobodySlipsIn(s: Session, step: Step, p: Client)
    requires Valid(s) && p !in s.Members && (step.Enter? ==> step.member != p)
    ensures p !in Do(s, step).Members
  {
    hide Inverse, IdsDistinct, LeaseKeyOf;
  }

  /** A lease is granted exactly to an editor when nobody else holds it, and then
      every other request for it is refused, with the holder's name. */
  lemma GrantIsExclusive(s: Session, m: Client, n: Client, r: Request, q: Request)
    requires Valid(s) && LeaseKeyOf(s, m, r).Some?
    ensures var key := LeaseKeyOf(s, m, r).value;
      AcquireReply(s, m, r).Granted? <==> CanEdit(s, m) && (key in s.leases ==> s.leases[key] == m)
    ensures AcquireReply(s, m, r).Granted? && n != m && CanEdit(s, n) && LeaseKeyOf(s, n, q) == LeaseKeyOf(s, m, r) ==>
      var a := Acquired(s, m, r);
      AcquireReply(a, n, q) == HeldBy(s.memberInfo[m].ID, s.memberInfo[m].Name) && Acquired(a, n, q) == a
        && PassesGate(a, m, LeaseKeyOf(s, m, r).value)
  {
    hide Inverse, IdsDistinct;
    var a := Acquired(s, m, r);
    assert LeaseKeyOf(a, n, q) == LeaseKeyOf(s, n, q);
  }

  /** Taking an account's rights away leaves its leases: with more than one member, no
      one passes the gate of such a lease and no one else is granted it. */
  lemma AccountLossBlocksLease(s: Session, h: Client, key: LeaseKey)
    requires Valid(s) && key in s.leases && s.leases[key] == h && h.accountID != "" && |s.Members| > 1
    ensures var r := AccountReadOnly(s, h.accountID, true);
      && (forall n :: !PassesGate(r, n, key))
      && (forall n, q :: LeaseKeyOf(r, n, q) == Some(key) ==> !AcquireReply(r, n, q).Granted?)
  {
    hide Inverse, IdsDistinct, LeaseKeyOf;
    var r := AccountReadOnly(s, h.accountID, true);
    assert h in r.readOnly && r.readOnly[h];
  }

  /** Taking a member's rights away frees them: any editor is granted what it held. */
  lemma MemberLossFreesLease(s: Session, h: Client, n: Client, q: Request)
    requires Valid(s) && h in s.Members && n != h && CanEdit(s, n)
    requires LeaseKeyOf(s, n, q).Some? && var key := LeaseKeyOf(s, n, q).value; key in s.leases && s.leases[key] == h
    ensures AcquireReply(MemberReadOnly(s, h, true), n, q).Granted?
  {
    hide Inverse, IdsDistinct;
    var r := MemberReadOnly(s, h, true);
    assert LeaseKeyOf(r, n, q) == LeaseKeyOf(s, n, q);
  }

  /** The step is taken by this connection. */
  predicate Takes(step: Step, n: Client) {
    match step
    case SetAccountReadOnly(_, _) => false
    case Enter(m, _, _, _) => m == n
    case Exit(m) => m == n
    case SetMemberReadOnly(m, _) => m == n
    case AcquireLease(m, _) => m == n
    case ReleaseLease(m, _) => m == n
    case Apply(m, _, _) => m == n
    case NewWorld(m) => m == n
    case UpdatePresence(m, _, _) => m == n
  }

  lemma NewWorldMoves(s: Session, m: Client, n: Client)
    requires Valid(s) && m in s.Members && n in s.Members && m != n
    ensures var r := Renewed(s, m);
      && n in r.memberBoard && n in r.memberInfo
      && r.memberBoard[n] == (if PassesOwnGate(s, m) then 0 else s.memberBoard[n])
      && r.memberInfo[n] == s.memberInfo[n].(BoardID := if PassesOwnGate(s, m) then 0 else s.memberInfo[n].BoardID)
  {
    hide Inverse, IdsDistinct, PassesGate;
    var f := Focused(s, m);
    assert f.memberBoard[n] == s.memberBoard[n] && f.memberInfo == s.memberInfo;
  }

  ghost predicate Undisturbed(s: Session, r: Session, n: Client) {
    && n in s.memberBoard && n in s.memberInfo && n in r.memberBoard && n in r.memberInfo
    && r.memberBoard[n] == s.memberBoard[n] && r.memberInfo[n] == s.memberInfo[n]
  }

  lemma EntryKeeps(s: Session, m: Client, name: string, token: string, minted: string, n: Client)
    requires Valid(s) && m != n && n in s.Members && n in Entered(s, m, name, token, minted).Members
    ensures Undisturbed(s, Entered(s, m, name, token, minted), n)
  {
    hide Inverse, IdsDistinct, Held, Renamed, NewPresence;
  }

  lemma OperationKeeps(s: Session, m: Client, end: int, count: int, n: Client)
    requires Valid(s) && m != n && n in s.Members
    ensures Undisturbed(s, Applied(s, m, end, count), n)
  {
    hide Inverse, IdsDistinct, Held;
  }

  lemma DepartureKeeps(s: Session, m: Client, n: Client)
    requires Valid(s) && m != n && n in s.Members
    ensures Undisturbed(s, Exited(s, m), n)
  {
    hide Inverse, IdsDistinct, Held, Released, TokensWithout;
  }

  lemma PointingKeeps(s: Session, m: Client, x: int, y: int, n: Client)
    requires Valid(s) && m != n && n in s.Members
    ensures Undisturbed(s, Pointed(s, m, x, y), n)
  {
    hide Inverse, IdsDistinct, Held, Clamp;
  }

  /** Rights and leases have nothing to do with boards. */
  lemma RightsKeepBoards(s: Session, step: Step, n: Client)
    requires Valid(s) && n in s.Members
    requires !step.Enter? && !step.Exit? && !step.Apply? && !step.NewWorld? && !step.UpdatePresence?
    ensures Undisturbed(s, Do(s, step), n)
  {
    DomainsAgree(s);
    hide Valid, AcquireReply, LeaseKeyOf, Released;
  }

  lemma OtherStepsKeep(s: Session, step: Step, n: Client)
    requires Valid(s) && !step.NewWorld? && !Takes(step, n) && n in s.Members && n in Do(s, step).Members
    ensures Undisturbed(s, Do(s, step), n)
  {
    hide Valid, Undisturbed, Entered, Applied, Exited, Pointed;
    hide MemberReadOnly, AccountReadOnly, Acquired, LeaseReleased;
    match step {
      case Enter(m, name, token, minted) => EntryKeeps(s, m, name, token, minted, n);
      case Apply(m, end, count) => OperationKeeps(s, m, end, count, n);
      case Exit(m) => DepartureKeeps(s, m, n);
      case UpdatePresence(m, x, y) => PointingKeeps(s, m, x, y, n);
      case _ => RightsKeepBoards(s, step, n);
    }
  }

  /** Exactly one step takes a member off the board it is on without its doing: a new
      world, made by somebody who passes the gate of the board they are on. */
  lemma OthersKeepTheirBoard(s: Session, step: Step, n: Client)
    requires Valid(s) && !Takes(step, n) && n in s.Members && n in Do(s, step).Members
    ensures var r, newWorld := Do(s, step), step.NewWorld? && step.member in s.Members && PassesOwnGate(s, step.member);
      && n in r.memberBoard && n in r.memberInfo
      && r.memberBoard[n] == (if newWorld then 0 else s.memberBoard[n])
      && r.memberInfo[n] == s.memberInfo[n].(BoardID := if newWorld then 0 else s.memberInfo[n].BoardID)
  {
    DomainsAgree(s);
    hide Valid, PassesOwnGate, Entered, Applied, Exited, Pointed;
    hide MemberReadOnly, AccountReadOnly, Acquired, LeaseReleased;
    if !step.NewWorld? {
      OtherStepsKeep(s, step, n);
    } else if step.member in s.Members {
      NewWorldMoves(s, step.member, n);
    }
  }

  /** After a new world every member is on its one board. The leases stay as they were:
      those of the other boards can be neither acquired nor released while the boards
      are gone. */
  lemma NewWorldGathersAll(s: Session, m: Client, n: Client, q: Request, key: LeaseKey)
    requires Valid(s) && m in s.Members && PassesOwnGate(s, m) && n in s.Members
    ensures var r := Renewed(s, m);
      && r.Members == s.Members && r.leases == s.leases && r.readOnly == s.readOnly
      && n in r.memberBoard && r.memberBoard[n] == 0 == r.CurrentBoard == r.BoardCount
      && (key.boardID != 0 ==>
            LeaseKeyOf(r, n, q) != Some(key) && (key in s.leases ==> key in LeaseReleased(r, n, q).leases))
  {
    hide Inverse, IdsDistinct, PassesGate;
  }
}

module Sessions {
  import opened GameVars
  import opened SessionSpec

  class EditorSession {
    var Members: set<Client>
    var memberInfo: map<Client, Presence>
    var readOnly: map<Client, bool>
    var nextMember: nat
    var leases: map<LeaseKey, Client>
    var memberBoard: map<Client, int>
    var memberToken: map<Client, string>
    var tokenMember: map<string, Client>
    var CurrentBoard: int
    var BoardCount: int

    ghost function Value(): Session
      reads this
    {
      Session(Members, memberInfo, readOnly, nextMember, leases, memberBoard, memberToken, tokenMember, CurrentBoard,
          BoardCount)
    }

    ghost predicate Ok()
      reads this
    {
      Valid(Value())
    }

    constructor (board: int, boards: int)
      ensures Ok() && Value() == NewSession(board, boards)
    {
      Members, memberInfo, readOnly, nextMember := {}, map[], map[], 0;
      leases, memberBoard, memberToken, tokenMember := map[], map[], map[], map[];
      CurrentBoard, BoardCount := board, boards;
    }

    /** EnterResuming: an entry that resumes an earlier membership when the token allows.
        `minted` is the token a fresh entry is given. */
    method EnterResuming(member: Client, name: string, token: string, minted: string)
      returns (presence: Presence, given: string, displaced: Option<Client>)
      requires Ok() && Fresh(Value(), minted)
      modifies this
      ensures Ok() && Value() == Entered(old(Value()), member, name, token, minted)
      ensures member in Members && presence == memberInfo[member] && given == memberToken[member]
      ensures displaced == if member !in old(Members) && Resumable(old(Value()), member, token)
                           then Some(old(tokenMember)[token]) else None
    {
      hide Valid, Admitted, Resumed;
      EnteredValid(Value(), member, name, token, minted);
      InAllOrNone(Value(), member);
      EnteredIsIn(Value(), member, name, token, minted);
      InAllOrNone(Entered(Value(), member, name, token, minted), member);
      if member in Members {
        return memberInfo[member], memberToken[member], None;
      }
      var resumed, previous := ResumeMember(member, name, token);
      if resumed {
        return memberInfo[member], memberToken[member], Some(previous);
      }
      presence := Admit(member, name, minted);
      given, displaced := minted, None;
    }

    method Admit(member: Client, name: string, minted: string) returns (presence: Presence)
      modifies this
      ensures Value() == Admitted(old(Value()), member, name, minted) && presence == memberInfo[member]
    {
      ghost var s := Value();
      nextMember := nextMember + 1;
      presence := NewPresence(nextMember, name, CurrentBoard);
      Record(member, presence, false, CurrentBoard);
      memberToken := memberToken[member := minted];
      tokenMember := tokenMember[minted := member];
      SameSession(Value(), Admitted(s, member, name, minted));
    }

    method ResumeMember(member: Client, name: string, token: string) returns (ok: bool, previous: Client)
      requires Ok() && member !in Members
      modifies this
      ensures ok == Resumable(old(Value()), member, token)
      ensures ok ==> Value() == Resumed(old(Value()), member, name, token) && previous == old(tokenMember)[token]
      ensures !ok ==> Value() == old(Value())
    {
      hide Valid;
      ok, previous := false, member;
      if token == "" || token !in tokenMember || tokenMember[token] == member {
        return;
      }
      if tokenMember[token].accountID != member.accountID {
        return;
      }
      ok, previous := true, tokenMember[token];
      TokenHolder(Value(), token);
      InAllOrNone(Value(), previous);
      MoveMembership(previous, member, name, token);
    }

    method MoveMembership(previous: Client, member: Client, name: string, token: string)
      requires Resumable(Value(), member, token) && previous == tokenMember[token]
      requires previous in memberInfo && previous in readOnly && previous in memberBoard
      modifies this
      ensures Value() == Resumed(old(Value()), member, name, token)
    {
      assert previous != member;
      hide Transferred, Resumable;
      ghost var s := Value();
      var presence, board, flag := memberInfo[previous], memberBoard[previous], readOnly[previous];
      if name != "" {
        presence := presence.(Name := name);
      }
      Forget(previous);
      memberToken := memberToken - {previous};
      TransferLeases(previous, member);
      Record(member, presence, flag, board);
      memberToken := memberToken[member := token];
      tokenMember := tokenMember[token := member];
      SameSession(Value(), Resumed(s, member, name, token));
    }

    method Forget(member: Client)
      modifies this`Members, this`memberInfo, this`memberBoard, this`readOnly
      ensures Members == old(Members) - {member} && memberInfo == old(memberInfo) - {member}
      ensures memberBoard == old(memberBoard) - {member} && readOnly == old(readOnly) - {member}
    {
      Members := Members - {member};
      memberInfo := memberInfo - {member};
      memberBoard := memberBoard - {member};
      readOnly := readOnly - {member};
    }

    method Record(member: Client, presence: Presence, flag: bool, board: int)
      modifies this`Members, this`memberInfo, this`memberBoard, this`readOnly
      ensures Members == old(Members) + {member} && memberInfo == old(memberInfo)[member := presence]
      ensures memberBoard == old(memberBoard)[member := board] && readOnly == old(readOnly)[member := flag]
    {
      Members := Members + {member};
      memberInfo := memberInfo[member := presence];
      readOnly := readOnly[member := flag];
      memberBoard := memberBoard[member := board];
    }

    method TransferLeases(previous: Client, member: Client)
      requires previous != member
      modifies this`leases
      ensures leases == Transferred(old(leases), previous, member)
    {
      var left := leases.Keys;
      while left != {}
        invariant leases.Keys == old(leases).Keys && left <= leases.Keys
        invariant forall k :: k in leases ==>
          leases[k] == if k !in left && old(leases)[k] == previous then member else old(leases)[k]
        decreases |left|
      {
        var key := AnyKey(left);
        if leases[key] == previous {
          leases := leases[key := member];
        }
        left := left - {key};
      }
    }

    method ReleaseAll(member: Client)
      modifies this`leases
      ensures leases == Released(old(leases), member)
    {
      var left := leases.Keys;
      while left != {}
        invariant left <= leases.Keys <= old(leases).Keys
        invariant forall k :: k in old(leases) ==> (k in leases <==> k in left || old(leases)[k] != member)
        invariant forall k :: k in leases ==> leases[k] == old(leases)[k]
        decreases |left|
      {
        var key := AnyKey(left);
        if leases[key] == member {
          leases := leases - {key};
        }
        left := left - {key};
      }
      assert leases.Keys == Released(old(leases), member).Keys;
    }

    method Exit(member: Client)
      requires Ok()
      modifies this
      ensures Ok() && Value() == Exited(old(Value()), member)
    {
      hide Valid, TokensWithout, Released;
      ghost var s := Value();
      ExitedValid(s, member);
      Forget(member);
      DropToken(member);
      ReleaseAll(member);
      SameSession(Value(), Exited(s, member));
    }

    method DropToken(member: Client)
      modifies this`memberToken, this`tokenMember
      ensures memberToken == old(memberToken) - {member}
      ensures tokenMember == TokensWithout(old(memberToken), old(tokenMember), member)
    {
      if member in memberToken {
        var token := memberToken[member];
        if token in tokenMember && tokenMember[token] == member {
          tokenMember := tokenMember - {token};
        }
        memberToken := memberToken - {member};
      } else {
        NothingDropped(memberToken, member);
      }
    }

    method SetMemberReadOnly(member: Client, flag: bool)
      requires Ok()
      modifies this
      ensures Ok() && Value() == MemberReadOnly(old(Value()), member, flag)
    {
      hide Valid;
      RightsValid(Value(), Step.SetMemberReadOnly(member, flag));
      if member !in Members {
        return;
      }
      readOnly := readOnly[member := flag];
      if flag {
        ReleaseAll(member);
      }
    }

    method SetAccountReadOnly(account: string, flag: bool) returns (changed: set<Client>)
      requires Ok()
      modifies this`readOnly
      ensures Ok() && Value() == AccountReadOnly(old(Value()), account, flag)
      ensures forall m :: m in changed <==> account != "" && m in Members && m.accountID == account
    {
      hide Valid;
      ghost var s := Value();
      RightsValid(s, Step.SetAccountReadOnly(account, flag));
      RightsDomain(s);
      changed := {};
      if account == "" {
        return;
      }
      changed := SetRights(account, flag);
      assert readOnly == AccountReadOnly(s, account, flag).readOnly;
      SameSession(Value(), AccountReadOnly(s, account, flag));
    }

    method SetRights(account: string, flag: bool) returns (changed: set<Client>)
      requires readOnly.Keys == Members
      modifies this`readOnly
      ensures forall m :: m in changed <==> m in Members && m.accountID == account
      ensures readOnly.Keys == Members
      ensures forall m :: m in Members ==> readOnly[m] == if m.accountID == account then flag else old(readOnly)[m]
    {
      changed := {};
      var left := Members;
      while left != {}
        invariant left <= Members && readOnly.Keys == Members
        invariant forall m :: m in changed <==> m in Members && m !in left && m.accountID == account
        invariant forall m :: m in Members ==> readOnly[m] == if m in changed then flag else old(readOnly)[m]
        decreases |left|
      {
        var member := AnyKey(left);
        if member.accountID == account {
          readOnly := readOnly[member := flag];
          changed := changed + {member};
        }
        left := left - {member};
      }
    }

    method AcquireLease(member: Client, request: Request) returns (reply: Reply)
      requires Ok()
      modifies this`leases
      ensures Ok() && Value() == Acquired(old(Value()), member, request)
        && reply == AcquireReply(old(Value()), member, request)
    {
      hide Valid;
      LeaseValid(Value(), Step.AcquireLease(member, request));
      InAllOrNone(Value(), member);
      if member !in Members {
        return NotAMember;
      }
      var key := LeaseKeyFor(member, request);
      if key.None? {
        return NoSuchThing;
      }
      if member !in readOnly || readOnly[member] {
        return ReadOnly;
      }
      if key.value in leases && leases[key.value] != member {
        var holder := leases[key.value];
        LeaseHolder(Value(), key.value);
        InAllOrNone(Value(), holder);
        return HeldBy(memberInfo[holder].ID, memberInfo[holder].Name);
      }
      leases := leases[key.value := member];
      reply := Granted;
    }

    method LeaseKeyFor(member: Client, request: Request) returns (key: Option<LeaseKey>)
      ensures key == LeaseKeyOf(Value(), member, request)
    {
      var board := CurrentBoard;
      if member in memberBoard {
        board := memberBoard[member];
      }
      if request.boardID >= 0 && request.boardID <= BoardCount {
        board := request.boardID;
      }
      if board < 0 || board > BoardCount {
        return None;
      }
      if request.kind == "board" {
        return Some(BoardLease(board));
      }
      if request.kind == "stat" && request.statID >= 0 && request.statID <= MAX_STAT {
        return Some(StatLease(board, request.statID));
      }
      key := None;
    }

    method ReleaseLease(member: Client, request: Request)
      requires Ok()
      modifies this`leases
      ensures Ok() && Value() == LeaseReleased(old(Value()), member, request)
    {
      LeaseValid(Value(), Step.ReleaseLease(member, request));
      hide Valid;
      var key := LeaseKeyFor(member, request);
      if key.Some? && key.value in leases && leases[key.value] == member {
        leases := leases - {key.value};
      }
    }

    /** Apply, around an operation that leaves the engine on board `end` of `count`. */
    method Apply(member: Client, end: int, count: int) returns (ok: bool, focus: int)
      requires Ok()
      modifies this
      ensures Ok() && Value() == Applied(old(Value()), member, end, count) && ok == (member in Members)
      ensures ok ==> focus == Focused(old(Value()), member).CurrentBoard
      ensures ok ==> focus == if 0 <= old(memberBoard)[member] <= old(BoardCount) then old(memberBoard)[member] else 0
      ensures ok ==> member in memberBoard && member in memberInfo && BoardCount == count
      ensures ok ==> memberBoard[member] == CurrentBoard == memberInfo[member].BoardID == end
      ensures !ok ==> Value() == old(Value())
      ensures forall n :: n in old(memberBoard) && n != member ==>
          n in memberBoard && memberBoard[n] == old(memberBoard)[n]
    {
      hide Valid;
      AppliedValid(Value(), member, end, count);
      InAllOrNone(Value(), member);
      focus := CurrentBoard;
      if member !in Members {
        return false, focus;
      }
      var board := memberBoard[member];
      if board < 0 || board > BoardCount {
        board := 0;
      }
      memberBoard := memberBoard[member := board];
      CurrentBoard := board;
      focus := board;
      CurrentBoard, BoardCount := end, count;
      memberBoard := memberBoard[member := end];
      memberInfo := memberInfo[member := memberInfo[member].(BoardID := end)];
      ok := true;
    }

    /** setMemberBoardLocked. */
    method SetMemberBoard(member: Client, board: int)
      modifies this`memberBoard, this`memberInfo
      ensures memberBoard == old(memberBoard)[member := board]
      ensures memberInfo == if member in old(memberInfo) then
                              old(memberInfo)[member := old(memberInfo)[member].(BoardID := board)]
                            else old(memberInfo)
    {
      memberBoard := memberBoard[member := board];
      if member in memberInfo {
        memberInfo := memberInfo[member := memberInfo[member].(BoardID := board)];
      }
    }

    method SetAllBoards(board: int)
      requires memberBoard.Keys == Members == memberInfo.Keys
      modifies this`memberBoard, this`memberInfo
      ensures memberBoard == (map n | n in Members :: board)
      ensures memberInfo == map n | n in old(memberInfo) :: old(memberInfo)[n].(BoardID := board)
    {
      ghost var info, boards := memberInfo, memberBoard;
      var left := Members;
      while left != {}
        invariant left <= Members
        invariant memberBoard == map n | n in Members :: if n in left then boards[n] else board
        invariant memberInfo == map n | n in Members :: if n in left then info[n] else info[n].(BoardID := board)
        decreases |left|
      {
        var other := AnyKey(left);
        SetMemberBoard(other, board);
        left := left - {other};
      }
    }

    /** focusMemberBoardLocked, for a member. */
    method FocusMemberBoard(member: Client)
      requires member in memberBoard
      modifies this`memberBoard, this`CurrentBoard
      ensures Value() == Focused(old(Value()), member)
    {
      var board := memberBoard[member];
      if board < 0 || board > BoardCount {
        board := 0;
      }
      memberBoard := memberBoard[member := board];
      CurrentBoard := board;
    }

    method HasBoardLease(member: Client) returns (has: bool)
      ensures has == PassesGate(Value(), member, BoardLease(CurrentBoard))
    {
      if member !in Members || member !in readOnly || readOnly[member] {
        return false;
      }
      if |Members| <= 1 {
        return true;
      }
      has := BoardLease(CurrentBoard) in leases && leases[BoardLease(CurrentBoard)] == member;
    }

    method NewWorld(member: Client)
      requires Ok()
      modifies this
      ensures Ok() && Value() == Renewed(old(Value()), member)
    {
      hide Valid, Focused, Gathered, MovedTo, PassesGate;
      RenewedValid(Value(), member);
      InAllOrNone(Value(), member);
      if member !in Members {
        return;
      }
      FocusedValid(Value(), member);
      FocusMemberBoard(member);
      ghost var f := Value();
      DomainsAgree(f);
      var has := HasBoardLease(member);
      if has {
        RenewWorld();
        GatheredAgain(f, member);
      }
      SetBoardOf(member);
    }

    /** WorldCreate leaves one board open, and everybody is put on it. */
    method RenewWorld()
      requires memberBoard.Keys == Members == memberInfo.Keys
      modifies this`memberBoard, this`memberInfo, this`CurrentBoard, this`BoardCount
      ensures Value() == Gathered(old(Value()).(CurrentBoard := 0, BoardCount := 0), 0)
    {
      CurrentBoard, BoardCount := 0, 0;
      SetAllBoards(CurrentBoard);
    }

    /** The end of Apply: the member follows the engine. */
    method SetBoardOf(member: Client)
      modifies this`memberBoard, this`memberInfo
      ensures Value() == MovedTo(old(Value()), member, old(CurrentBoard))
    {
      SetMemberBoard(member, CurrentBoard);
    }

    method UpdatePresence(member: Client, x: int, y: int)
      requires Ok()
      modifies this`memberInfo
      ensures Ok() && Value() == Pointed(old(Value()), member, x, y)
    {
      PointedValid(Value(), member, x, y);
      hide Valid;
      if member in memberInfo {
        var presence := memberInfo[member].(X := Clamp(x, BOARD_WIDTH), Y := Clamp(y, BOARD_HEIGHT));
        memberInfo := memberInfo[member := presence];
      }
    }
  }
}