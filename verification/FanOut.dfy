/** The fan-out gate of a collaborative editing session (engine/editor_session.go,
    EditAndFanOut and inOrder), as steps that any number of connections interleave.
    Each step is one critical section, or one message handed to one member's writer. */
module FanOut {
  import opened GameVars

  datatype Cell = Cell(ch: Byte, color: Byte)

  /** A full frame, or the dirty cells of one edit. */
  type Cells = map<Coord, Cell>

  type Conn = nat

  /** Where a connection is in EditAndFanOut: it holds a ticket and waits its turn,
      or it broadcasts and has yet to reach the members in `left`. */
  datatype Phase = Waiting(ticket: nat) | Serving(ticket: nat, left: set<Conn>)

  /** A member's screen. `since` is the first edit whose diff it is owed; `taken` the
      number of edits in its snapshot; then the diffs queued before the snapshot was
      written and those after. */
  datatype Observer = Observer(since: nat, taken: Option<nat>, before: seq<nat>, written: bool, after: seq<nat>)

  datatype Session = Session(
    first: Cells,              // the frame before any edit
    diffs: seq<Cells>,         // the edits applied, in order
    fanTicket: nat,
    fanServing: nat,
    phase: map<Conn, Phase>,   // connections inside EditAndFanOut
    members: map<Conn, Observer>)

  datatype Step =
    | Enter(member: Conn)
    | Exit(member: Conn)
    | TakeSnapshot(member: Conn)
    | WriteSnapshot(member: Conn)
    | Apply(conn: Conn, dirty: Cells)
    | Begin(conn: Conn)
    | Deliver(conn: Conn, member: Conn)
    | Finish(conn: Conn)

  // ---- Frames ------------------------------------------------------------

  function Merged(diffs: seq<Cells>): Cells {
    if diffs == [] then map[] else Merged(diffs[..|diffs| - 1]) + diffs[|diffs| - 1]
  }

  /** The session's frame after its first n edits. */
  function FrameAt(s: Session, n: nat): Cells
    requires n <= |s.diffs|
  {
    s.first + Merged(s.diffs[..n])
  }

  function Frame(s: Session): Cells { FrameAt(s, |s.diffs|) }

  lemma {:induction false} MergedParts(a: seq<Cells>, b: seq<Cells>)
    ensures Merged(a + b) == Merged(a) + Merged(b)
  {
    if b == [] {
      assert a + b == a;
    } else {
      var n := |b| - 1;
      assert (a + b)[..|a + b| - 1] == a + b[..n];
      MergedParts(a, b[..n]);
    }
  }

  /** Diffs that a frame already contains change nothing, even though each of them
      puts back older cells on the way. */
  lemma StaleDiffsSettle(s: Session, j: nat, k: nat, n: nat)
    requires j <= k <= n <= |s.diffs|
    ensures FrameAt(s, k) + Merged(s.diffs[j..n]) == FrameAt(s, n)
  {
    hide Merged;
    var d := s.diffs;
    MergedParts(d[..j], d[j..k]);
    MergedParts(d[..k], d[k..n]);
    MergedParts(d[j..k], d[k..n]);
    assert d[..j] + d[j..k] == d[..k];
    assert d[..k] + d[k..n] == d[..n];
    assert d[j..k] + d[k..n] == d[j..n];
    TwiceIsOnce(s.first, Merged(d[..j]), Merged(d[j..k]), Merged(d[k..n]));
  }

  lemma TwiceIsOnce(f: Cells, a: Cells, b: Cells, c: Cells)
    ensures f + (a + b) + (b + c) == f + (a + b + c)
  {
  }

  // ---- Steps -------------------------------------------------------------

  ghost predicate SomeoneServes(s: Session) {
    exists c :: c in s.phase && s.phase[c].Serving?
  }

  ghost predicate Enabled(s: Session, step: Step) {
    match step
    case Enter(m) => m !in s.members
    case Exit(m) => m in s.members
    case TakeSnapshot(m) => m in s.members && s.members[m].taken.None?
    case WriteSnapshot(m) => m in s.members && s.members[m].taken.Some? && !s.members[m].written
    case Apply(c, dirty) => c !in s.phase && dirty.Keys <= s.first.Keys
    case Begin(c) => c in s.phase && s.phase[c].Waiting? && s.phase[c].ticket == s.fanServing
    case Deliver(c, m) => c in s.phase && s.phase[c].Serving? && m in s.phase[c].left && m in s.members
    case Finish(c) => c in s.phase && s.phase[c].Serving? && s.phase[c].left == {}
  }

  function Queued(o: Observer, ticket: nat): Observer {
    if o.written then o.(after := o.after + [ticket]) else o.(before := o.before + [ticket])
  }

  function Forgets(p: Phase, m: Conn): Phase {
    if p.Serving? then p.(left := p.left - {m}) else p
  }

  /** No broadcast goes to a member that has left. */
  function Forgotten(phase: map<Conn, Phase>, m: Conn): map<Conn, Phase> {
    map c | c in phase :: Forgets(phase[c], m)
  }

  ghost function Do(s: Session, step: Step): Session
    requires Enabled(s, step)
  {
    match step
    case Enter(m) =>
      var since := if SomeoneServes(s) then s.fanServing + 1 else s.fanServing;
      s.(members := s.members[m := Observer(since, None, [], false, [])])
    case Exit(m) =>
      s.(members := s.members - {m}, phase := Forgotten(s.phase, m))
    case TakeSnapshot(m) =>
      s.(members := s.members[m := s.members[m].(taken := Some(|s.diffs|))])
    case WriteSnapshot(m) =>
      s.(members := s.members[m := s.members[m].(written := true)])
    case Apply(c, dirty) =>
      s.(diffs := s.diffs + [dirty], phase := s.phase[c := Waiting(s.fanTicket)], fanTicket := s.fanTicket + 1)
    case Begin(c) =>
      s.(phase := s.phase[c := Serving(s.fanServing, s.members.Keys)])
    case Deliver(c, m) =>
      s.(phase := s.phase[c := s.phase[c].(left := s.phase[c].left - {m})],
         members := s.members[m := Queued(s.members[m], s.phase[c].ticket)])
    case Finish(c) =>
      s.(phase := s.phase - {c}, fanServing := s.fanServing + 1)
  }

  // ---- The invariant -----------------------------------------------------

  ghost predicate Holds(s: Session, c: Conn, t: nat) {
    c in s.phase && s.phase[c].ticket == t
  }

  /** Every ticket issued and not yet retired is held by exactly one connection, and
      only the ticket being served is broadcast. */
  ghost predicate Ordered(s: Session) {
    && s.fanTicket == |s.diffs| && s.fanServing <= s.fanTicket
    && (forall t {:trigger Due(s, t)} :: Due(s, t) ==> exists c :: Holds(s, c, t))
    && (forall c :: c in s.phase ==> Due(s, s.phase[c].ticket))
    && (forall c, d :: c in s.phase && d in s.phase && s.phase[c].ticket == s.phase[d].ticket ==> c == d)
    && (forall c :: c in s.phase && s.phase[c].Serving? ==>
          s.phase[c].ticket == s.fanServing && s.phase[c].left <= s.members.Keys)
  }

  predicate Due(s: Session, t: nat) { s.fanServing <= t < s.fanTicket }

  /** The first ticket not yet handed to member m. */
  ghost function Upto(s: Session, m: Conn): nat {
    if exists c :: c in s.phase && s.phase[c].Serving? && m !in s.phase[c].left then s.fanServing + 1 else s.fanServing
  }

  predicate Consecutive(q: seq<nat>, from: nat, upto: int) {
    |q| == upto - from && forall i :: 0 <= i < |q| ==> q[i] == from + i
  }

  /** A member has been handed every diff it is owed, in order and without a gap, and
      its snapshot is no older than the first of them. */
  ghost predicate Served(s: Session, m: Conn)
    requires m in s.members
  {
    var o := s.members[m];
    && o.since <= Upto(s, m) && o.since <= |s.diffs|
    && Consecutive(o.before + o.after, o.since, Upto(s, m))
    && (o.written ==> o.taken.Some?) && (!o.written ==> o.after == [])
    && (o.taken.Some? ==> o.since <= o.taken.value <= |s.diffs|)
  }

  ghost predicate Inv(s: Session) {
    && Ordered(s)
    && (forall m :: m in s.members ==> Served(s, m))
    && (forall i :: 0 <= i < |s.diffs| ==> s.diffs[i].Keys <= s.first.Keys)
  }

  function Start(first: Cells): Session { Session(first, [], 0, 0, map[], map[]) }

  lemma StartHolds(first: Cells)
    ensures Inv(Start(first))
  {
  }

  lemma OrderedKept(s: Session, step: Step)
    requires Inv(s) && Enabled(s, step)
    ensures Ordered(Do(s, step))
  {
    var r := Do(s, step);
    forall t | Due(r, t)
      ensures exists c :: Holds(r, c, t)
    {
      if step.Apply? && t == s.fanTicket {
        assert Holds(r, step.conn, t);
      } else {
        assert Due(s, t);
        var c :| Holds(s, c, t);
        HeldKept(s, step, c);
        assert Holds(r, c, t);
      }
    }
    PhasesKept(s, step);
  }

  lemma HeldKept(s: Session, step: Step, c: Conn)
    requires Inv(s) && Enabled(s, step) && c in s.phase && Due(Do(s, step), s.phase[c].ticket)
    ensures Holds(Do(s, step), c, s.phase[c].ticket)
  {
  }

  lemma PhasesKept(s: Session, step: Step)
    requires Inv(s) && Enabled(s, step)
    ensures var r := Do(s, step);
      && (forall c :: c in r.phase ==> Due(r, r.phase[c].ticket))
      && (forall c, d :: c in r.phase && d in r.phase && r.phase[c].ticket == r.phase[d].ticket ==> c == d)
      && (forall c :: c in r.phase && r.phase[c].Serving? ==>
            r.phase[c].ticket == r.fanServing && r.phase[c].left <= r.members.Keys)
  {
    hide Served;
    var r := Do(s, step);
    forall c | c in r.phase
      ensures Due(r, r.phase[c].ticket)
      ensures r.phase[c].Serving? ==> r.phase[c].ticket == r.fanServing && r.phase[c].left <= r.members.Keys
      ensures if c in s.phase then r.phase[c].ticket == s.phase[c].ticket
        else step.Apply? && r.phase[c].ticket == s.fanTicket
    {
      if c in s.phase {
        assert Due(s, s.phase[c].ticket);
        assert step.Finish? ==> s.phase[step.conn].ticket == s.fanServing;
      }
    }
  }

  /** Only one connection serves, so what is served does not depend on who asks. */
  lemma TheServer(s: Session, c: Conn, m: Conn)
    requires Ordered(s) && c in s.phase && s.phase[c].Serving?
    ensures Upto(s, m) == if m in s.phase[c].left then s.fanServing else s.fanServing + 1
  {
  }

  lemma NoServer(s: Session, m: Conn)
    requires forall c :: c in s.phase ==> !s.phase[c].Serving?
    ensures Upto(s, m) == s.fanServing
  {
  }

  /** What the member has been handed up to, after the step. */
  ghost function UptoAfter(s: Session, step: Step, m: Conn): nat {
    if step.Enter? && step.member == m then (if SomeoneServes(s) then s.fanServing + 1 else s.fanServing)
    else if step.Deliver? && step.member == m then Upto(s, m) + 1
    else Upto(s, m)
  }

  lemma UptoWhileServing(s: Session, step: Step, c: Conn, m: Conn)
    requires Ordered(s) && Enabled(s, step) && m in Do(s, step).members && Ordered(Do(s, step))
    requires c in s.phase && s.phase[c].Serving?
    ensures Upto(Do(s, step), m) == UptoAfter(s, step, m)
  {
    var r := Do(s, step);
    TheServer(s, c, m);
    hide Upto, Ordered;
    assert s.phase[c].left <= s.members.Keys && SomeoneServes(s);
    assert step.Deliver? || step.Finish? ==> step.conn == c by {
      SameServer(s, c, if step.Deliver? || step.Finish? then step.conn else c);
    }
    if step.Finish? {
      OnlyServer(s, c);
      NoServer(r, m);
    } else {
      TheServer(r, c, m);
    }
  }

  lemma SameServer(s: Session, c: Conn, d: Conn)
    requires Ordered(s) && c in s.phase && s.phase[c].Serving? && d in s.phase && s.phase[d].Serving?
    ensures c == d
  {
  }

  lemma OnlyServer(s: Session, c: Conn)
    requires Ordered(s) && c in s.phase && s.phase[c].Serving?
    ensures forall d :: d in s.phase && s.phase[d].Serving? ==> d == c
  {
  }

  lemma UptoWhileIdle(s: Session, step: Step, m: Conn)
    requires Ordered(s) && Enabled(s, step) && m in Do(s, step).members && Ordered(Do(s, step)) && !SomeoneServes(s)
    ensures Upto(Do(s, step), m) == UptoAfter(s, step, m)
  {
    var r := Do(s, step);
    NoServer(s, m);
    hide Upto, Ordered;
    if step.Begin? {
      TheServer(r, step.conn, m);
    } else {
      NoServer(r, m);
    }
  }

  lemma UptoKept(s: Session, step: Step, m: Conn)
    requires Inv(s) && Enabled(s, step) && m in Do(s, step).members
    ensures Upto(Do(s, step), m) == UptoAfter(s, step, m)
  {
    OrderedKept(s, step);
    hide Upto, Do, UptoAfter, Served;
    if SomeoneServes(s) {
      var c :| c in s.phase && s.phase[c].Serving?;
      UptoWhileServing(s, step, c, m);
    } else {
      UptoWhileIdle(s, step, m);
    }
  }

  lemma ServedKept(s: Session, step: Step, m: Conn)
    requires Inv(s) && Enabled(s, step) && m in Do(s, step).members
    ensures Served(Do(s, step), m)
  {
    UptoKept(s, step, m);
    if step.Deliver? && step.member == m {
      DeliverNext(s, step.conn, m);
      assert Served(s, m);
      DeliveredServed(s, step.conn, m);
    } else if step.Enter? && step.member == m {
      EntersInTime(s);
      hide Ordered, Upto;
    } else {
      assert Served(s, m);
      hide Ordered, Upto, SomeoneServes;
    }
  }

  lemma DeliveredServed(s: Session, c: Conn, m: Conn)
    requires Enabled(s, Deliver(c, m)) && Served(s, m) && s.fanServing < |s.diffs|
    requires Upto(Do(s, Deliver(c, m)), m) == s.fanServing + 1
    requires s.phase[c].ticket == Upto(s, m) == s.fanServing
    requires var o, q := s.members[m], Queued(s.members[m], s.phase[c].ticket);
      q.before + q.after == o.before + o.after + [s.fanServing]
    ensures Served(Do(s, Deliver(c, m)), m)
  {
    hide Upto;
  }

  lemma EntersInTime(s: Session)
    requires Ordered(s)
    ensures (if SomeoneServes(s) then s.fanServing + 1 else s.fanServing) <= |s.diffs|
  {
  }

  lemma DeliverNext(s: Session, c: Conn, m: Conn)
    requires Inv(s) && Enabled(s, Deliver(c, m))
    ensures s.phase[c].ticket == Upto(s, m) == s.fanServing < |s.diffs|
    ensures var o, q := s.members[m], Queued(s.members[m], s.phase[c].ticket);
      q.before + q.after == o.before + o.after + [s.fanServing]
  {
    TheServer(s, c, m);
    assert Served(s, m);
  }

  lemma StepKeepsInv(s: Session, step: Step)
    requires Inv(s) && Enabled(s, step)
    ensures Inv(Do(s, step))
  {
    OrderedKept(s, step);
    forall m | m in Do(s, step).members
      ensures Served(Do(s, step), m)
    {
      ServedKept(s, step, m);
    }
  }

  // ---- Every run ---------------------------------------------------------

  ghost predicate LegalRun(s: Session, steps: seq<Step>)
    decreases |steps|
  {
    steps != [] ==> Enabled(s, steps[0]) && LegalRun(Do(s, steps[0]), steps[1..])
  }

  ghost function Run(s: Session, steps: seq<Step>): Session
    requires LegalRun(s, steps)
    decreases |steps|
  {
    if steps == [] then s else Run(Do(s, steps[0]), steps[1..])
  }

  lemma {:induction false} RunKeepsInv(s: Session, steps: seq<Step>)
    requires Inv(s) && LegalRun(s, steps)
    ensures Inv(Run(s, steps))
    decreases |steps|
  {
    if steps != [] {
      StepKeepsInv(s, steps[0]);
      RunKeepsInv(Do(s, steps[0]), steps[1..]);
    }
  }

  /** Broadcasts run one at a time, and no issued ticket is lost: while one is due, the
      connection that holds the ticket being served can move. */
  lemma OneAtATimeAndNoneLost(s: Session)
    requires Inv(s)
    ensures forall c, d :: c in s.phase && s.phase[c].Serving? && d in s.phase && s.phase[d].Serving? ==> c == d
    ensures s.fanServing < s.fanTicket ==>
      exists c :: Holds(s, c, s.fanServing)
          && (Enabled(s, Begin(c)) || Enabled(s, Finish(c)) || exists m :: Enabled(s, Deliver(c, m)))
    ensures s.phase == map[] ==> s.fanServing == s.fanTicket
  {
    if s.fanServing < s.fanTicket {
      assert Due(s, s.fanServing);
      var c :| Holds(s, c, s.fanServing);
      if s.phase[c].Serving? && s.phase[c].left != {} {
        var m :| m in s.phase[c].left;
        assert Enabled(s, Deliver(c, m));
      }
    }
  }

  // ---- What is painted ---------------------------------------------------

  /** The edits of a run, in the order they were applied. */
  function Edits(steps: seq<Step>): seq<Cells> {
    if steps == [] then []
    else (if steps[0].Apply? then [steps[0].dirty] else []) + Edits(steps[1..])
  }

  lemma StepPaints(s: Session, step: Step)
    requires Enabled(s, step)
    ensures var r := Do(s, step);
      r.first == s.first && r.diffs == s.diffs + if step.Apply? then [step.dirty] else []
  {
  }

  /** The session's frame is what the edits paint over each other, whoever made them and
      however they are broadcast. */
  lemma {:induction false} RunPaintsInOrder(s: Session, steps: seq<Step>)
    requires LegalRun(s, steps)
    ensures Run(s, steps).first == s.first && Run(s, steps).diffs == s.diffs + Edits(steps)
    decreases |steps|
  {
    hide Enabled, Do;
    if steps != [] {
      StepPaints(s, steps[0]);
      RunPaintsInOrder(Do(s, steps[0]), steps[1..]);
    }
  }

  /** An edit is painted over the frame, and the ticket its connection draws is its number. */
  lemma EditIsPainted(s: Session, c: Conn, dirty: Cells)
    requires Inv(s) && Enabled(s, Apply(c, dirty))
    ensures var r := Do(s, Apply(c, dirty));
      && Frame(r) == Frame(s) + dirty && c in r.phase && r.phase[c].Waiting?
      && r.phase[c].ticket < |r.diffs| && r.diffs[r.phase[c].ticket] == dirty && r.members == s.members
  {
    var r := Do(s, Apply(c, dirty));
    assert r.diffs[..|r.diffs|] == r.diffs && r.diffs[..|r.diffs| - 1] == s.diffs == s.diffs[..|s.diffs|];
    hide Inv, Ordered;
    assert Merged(r.diffs) == Merged(s.diffs) + dirty;
    assert s.first + (Merged(s.diffs) + dirty) == (s.first + Merged(s.diffs)) + dirty;
  }

  /** While a connection is inside, its ticket names the edit it applied; leaving again
      takes a broadcast to every member that was there when it began and has stayed. */
  lemma TicketNamesTheEdit(s: Session, step: Step, c: Conn)
    requires Inv(s) && Enabled(s, step) && c in s.phase && s.phase[c].ticket < |s.diffs|
    ensures var r := Do(s, step);
      && (c in r.phase ==> r.phase[c].ticket == s.phase[c].ticket)
      && s.phase[c].ticket < |r.diffs| && r.diffs[s.phase[c].ticket] == s.diffs[s.phase[c].ticket]
      && (c !in r.phase <==> step == Finish(c))
  {
  }

  /** A snapshot holds every edit applied so far, and taking it touches nobody else. */
  lemma SnapshotIsTheFrame(s: Session, m: Conn)
    requires Enabled(s, TakeSnapshot(m))
    ensures var r := Do(s, TakeSnapshot(m));
      && m in r.members && r.members[m].taken == Some(|r.diffs|) && FrameAt(r, |r.diffs|) == Frame(s)
      && r.members - {m} == s.members - {m} && r.phase == s.phase && r.diffs == s.diffs
  {
  }

  /** A broadcast begins for everybody who is a member then, and hands each the number of
      the edit once: behind what came after its snapshot, or before it is written. */
  lemma BroadcastReaches(s: Session, c: Conn, m: Conn)
    requires Enabled(s, Begin(c)) && m in s.members
    ensures var b := Do(s, Begin(c)); var o := s.members[m];
      && Enabled(b, Deliver(c, m)) && !Enabled(b, Finish(c))
      && var r := Do(b, Deliver(c, m));
        && !Enabled(r, Deliver(c, m)) && m in r.members
        && r.members[m] == (if o.written then o.(after := o.after + [s.fanServing])
                            else o.(before := o.before + [s.fanServing]))
        && forall n :: n in s.members && n != m ==> Enabled(r, Deliver(c, n)) && r.members[n] == s.members[n]
  {
  }

  /** What a member's browser shows once its snapshot has been written. */
  function View(s: Session, o: Observer): Cells
    requires o.taken.Some? && o.taken.value <= |s.diffs| && forall i :: 0 <= i < |o.after| ==> o.after[i] < |s.diffs|
  {
    FrameAt(s, o.taken.value) + Merged(Picked(s.diffs, o.after))
  }

  function Picked(diffs: seq<Cells>, tickets: seq<nat>): (r: seq<Cells>)
    requires forall i :: 0 <= i < |tickets| ==> tickets[i] < |diffs|
    ensures |r| == |tickets| && forall i :: 0 <= i < |r| ==> r[i] == diffs[tickets[i]]
  {
    seq(|tickets|, i requires 0 <= i < |tickets| => diffs[tickets[i]])
  }

  lemma AfterIsTail(s: Session, m: Conn)
    requires Inv(s) && m in s.members && s.phase == map[]
    ensures var o := s.members[m]; var b := o.since + |o.before|;
      && b <= |s.diffs| && (forall i :: 0 <= i < |o.after| ==> o.after[i] < |s.diffs|)
      && Picked(s.diffs, o.after) == s.diffs[b..]
  {
    var o := s.members[m];
    NoServer(s, m);
    OneAtATimeAndNoneLost(s);
    assert Served(s, m);
    forall i | 0 <= i < |o.after|
      ensures o.after[i] == o.since + |o.before| + i
    {
      assert (o.before + o.after)[|o.before| + i] == o.after[i];
    }
  }

  /** Convergence. When every broadcast is over, a member whose snapshot reached its
      writer before the diff of any edit the snapshot lacks shows the session's own
      frame. Otherwise it does so exactly if each cell is either repainted by a diff
      after the snapshot or the same in the snapshot and now. */
  lemma ObserverConverges(s: Session, m: Conn)
    requires Inv(s) && m in s.members && s.members[m].written && s.phase == map[]
    ensures var o := s.members[m];
      && o.taken.Some? && o.taken.value <= |s.diffs| && (forall i :: 0 <= i < |o.after| ==> o.after[i] < |s.diffs|)
      && (o.since + |o.before| <= o.taken.value ==> View(s, o) == Frame(s))
      && (View(s, o) == Frame(s) <==>
          forall at :: at in s.first ==>
            at in Merged(Picked(s.diffs, o.after)) || FrameAt(s, o.taken.value)[at] == Frame(s)[at])
  {
    var o := s.members[m];
    var k, b, n := o.taken.value, o.since + |o.before|, |s.diffs|;
    assert Served(s, m);
    AfterIsTail(s, m);
    assert s.diffs[b..n] == s.diffs[b..] && k <= n && b <= n;
    InsideFrame(s);
    hide Inv, Served, Merged, Picked;
    if b <= k {
      StaleDiffsSettle(s, b, k, n);
    }
    ShownIsFrame(s, k, b);
  }

  lemma InsideFrame(s: Session)
    requires forall i :: 0 <= i < |s.diffs| ==> s.diffs[i].Keys <= s.first.Keys
    ensures forall i :: 0 <= i <= |s.diffs| ==> Merged(s.diffs[..i]).Keys <= s.first.Keys
  {
    forall i | 0 <= i <= |s.diffs|
      ensures Merged(s.diffs[..i]).Keys <= s.first.Keys
    {
      MergedInside(s, i);
    }
  }

  /** A snapshot of k edits followed by the diffs from b on. */
  lemma ShownIsFrame(s: Session, k: nat, b: nat)
    requires k <= |s.diffs| && b <= |s.diffs|
    requires forall i :: 0 <= i <= |s.diffs| ==> Merged(s.diffs[..i]).Keys <= s.first.Keys
    ensures FrameAt(s, k).Keys == Frame(s).Keys == s.first.Keys
    ensures FrameAt(s, k) + Merged(s.diffs[b..]) == Frame(s) <==>
      forall at :: at in s.first ==> at in Merged(s.diffs[b..]) || FrameAt(s, k)[at] == Frame(s)[at]
  {
    var n, tail := |s.diffs|, s.diffs[b..];
    MergedParts(s.diffs[..b], tail);
    assert s.diffs[..b] + tail == s.diffs[..n];
    hide Merged;
    var shown := FrameAt(s, k) + Merged(tail);
    assert Merged(s.diffs[..k]).Keys <= s.first.Keys && Merged(s.diffs[..n]).Keys <= s.first.Keys;
    SameFrame(shown, Frame(s), s.first.Keys);
    assert forall at :: at in Merged(tail) ==> Frame(s)[at] == Merged(tail)[at];
  }

  lemma SameFrame(a: Cells, b: Cells, keys: set<Coord>)
    requires a.Keys <= keys && b.Keys <= keys && keys <= a.Keys && keys <= b.Keys
    ensures a == b <==> forall at :: at in keys ==> a[at] == b[at]
  {
  }

  lemma {:induction false} MergedInside(s: Session, n: nat)
    requires n <= |s.diffs| && forall i :: 0 <= i < |s.diffs| ==> s.diffs[i].Keys <= s.first.Keys
    ensures Merged(s.diffs[..n]).Keys <= s.first.Keys
  {
    if n > 0 {
      assert s.diffs[..n][..n - 1] == s.diffs[..n - 1];
      MergedInside(s, n - 1);
    }
  }

  /** The condition matters: an edit that is applied after a newcomer's snapshot was
      taken and broadcast before it is written is lost on the newcomer's screen. */
  lemma LateSnapshotDiverges(at: Coord, was: Cell, now: Cell)
    ensures var s := Start(map[at := was]);
      && LegalRun(s, LateSteps(at, now)) && var r := Run(s, LateSteps(at, now));
      && Inv(r) && r.phase == map[] && 1 in r.members && r.members[1] == Observer(0, Some(0), [0], true, [])
      && at in View(r, r.members[1]) && View(r, r.members[1])[at] == was
      && at in Frame(r) && Frame(r)[at] == now
  {
    LateRun(at, was, now);
    StartHolds(map[at := was]);
    RunKeepsInv(Start(map[at := was]), LateSteps(at, now));
    hide LegalRun, Run, Inv;
    var r := Run(Start(map[at := was]), LateSteps(at, now));
    assert r.diffs[..0] == [] && r.diffs[..1][..0] == [] && r.diffs[..1][0] == map[at := now];
    assert Picked(r.diffs, []) == [];
  }

  function LateSteps(at: Coord, now: Cell): seq<Step> {
    [Enter(1), TakeSnapshot(1), Apply(2, map[at := now])] + [Begin(2), Deliver(2, 1), Finish(2)] + [WriteSnapshot(1)]
  }

  lemma LateRun(at: Coord, was: Cell, now: Cell)
    ensures LegalRun(Start(map[at := was]), LateSteps(at, now))
    ensures Run(Start(map[at := was]), LateSteps(at, now)) ==
            Session(map[at := was], [map[at := now]], 1, 1, map[], map[1 := Observer(0, Some(0), [0], true, [])])
  {
    var s0 := Start(map[at := was]);
    var s3 := Session(map[at := was], [map[at := now]], 1, 0, map[2 := Waiting(0)],
        map[1 := Observer(0, Some(0), [], false, [])]);
    var s6 := s3.(fanServing := 1, phase := map[], members := map[1 := Observer(0, Some(0), [0], false, [])]);
    EnterAndApply(at, was, now);
    BroadcastTo(s3);
    assert Do(s6, WriteSnapshot(1)).members == map[1 := Observer(0, Some(0), [0], true, [])];
    assert [WriteSnapshot(1)][1..] == [] && LegalRun(s6, [WriteSnapshot(1)]);
    assert Run(s6, [WriteSnapshot(1)]) == Do(s6, WriteSnapshot(1));
    hide LegalRun, Run, Do, Enabled;
    var a, b := [Enter(1), TakeSnapshot(1), Apply(2, map[at := now])], [Begin(2), Deliver(2, 1), Finish(2)];
    RunParts(s0, a, b);
    RunParts(s0, a + b, [WriteSnapshot(1)]);
  }

  lemma {:induction false} RunParts(s: Session, a: seq<Step>, b: seq<Step>)
    requires LegalRun(s, a) && LegalRun(Run(s, a), b)
    ensures LegalRun(s, a + b) && Run(s, a + b) == Run(Run(s, a), b)
    decreases |a|
  {
    if a == [] {
      assert a + b == b;
    } else {
      assert (a + b)[1..] == a[1..] + b;
      RunParts(Do(s, a[0]), a[1..], b);
    }
  }

  lemma ThreeSteps(s: Session, a: Step, b: Step, c: Step)
    requires Enabled(s, a) && Enabled(Do(s, a), b) && Enabled(Do(Do(s, a), b), c)
    ensures LegalRun(s, [a, b, c]) && Run(s, [a, b, c]) == Do(Do(Do(s, a), b), c)
  {
    hide Do, Enabled;
    assert [a, b, c][1..] == [b, c] && [b, c][1..] == [c] && [c][1..] == [];
    assert LegalRun(Do(Do(s, a), b), [c]) && LegalRun(Do(s, a), [b, c]);
    assert Run(Do(Do(s, a), b), [c]) == Do(Do(Do(s, a), b), c);
    assert Run(Do(s, a), [b, c]) == Do(Do(Do(s, a), b), c);
  }

  lemma EnterAndApply(at: Coord, was: Cell, now: Cell)
    ensures var s, steps := Start(map[at := was]), [Enter(1), TakeSnapshot(1), Apply(2, map[at := now])];
      LegalRun(s, steps) && Run(s, steps) ==
        Session(map[at := was], [map[at := now]], 1, 0, map[2 := Waiting(0)],
            map[1 := Observer(0, Some(0), [], false, [])])
  {
    var s := Start(map[at := was]);
    ThreeSteps(s, Enter(1), TakeSnapshot(1), Apply(2, map[at := now]));
  }

  lemma BroadcastTo(s: Session)
    requires s.phase == map[2 := Waiting(0)] && s.fanServing == 0
      && s.members == map[1 := Observer(0, Some(0), [], false, [])]
    ensures var steps := [Begin(2), Deliver(2, 1), Finish(2)];
      LegalRun(s, steps) && Run(s, steps) ==
        s.(fanServing := 1, phase := map[], members := map[1 := Observer(0, Some(0), [0], false, [])])
  {
    var a := Do(s, Begin(2));
    assert a.phase[2] == Serving(0, {1});
    var b := Do(a, Deliver(2, 1));
    assert b.phase[2] == Serving(0, {}) by {
      assert {1} - {1} == {};
    }
    ThreeSteps(s, Begin(2), Deliver(2, 1), Finish(2));
    assert Do(b, Finish(2)).phase == map[];
    assert a.phase[2].ticket == 0 && b.members[1] == Queued(s.members[1], 0) == Observer(0, Some(0), [0], false, []);
    assert b.members == map[1 := Observer(0, Some(0), [0], false, [])];
  }
}
