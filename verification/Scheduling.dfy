/** One cycle of the stat loop (engine/game.go, GameStepWithInputs): the cursor
    CurrentStatTicked walks over a table that the ticks themselves lengthen and
    shorten. Stats are told apart by identity, not by index. */
module Scheduling {
  import opened GameVars
  import opened BoardSpec
  import opened StatTable

  /** Who is in each slot, and the cursor. */
  datatype Table = Table(who: seq<int>, ticked: int)

  /** What a tick does to the table: AddStat, RemoveStat of any index, or the
      explicit CurrentStatTicked-- that some ticks make after removing themselves. */
  datatype Change = Added(stat: int) | Dropped(index: int) | SteppedBack

  ghost predicate Distinct(who: seq<int>) {
    forall i, j :: 0 <= i < j < |who| ==> who[i] != who[j]
  }

  ghost predicate Legal(t: Table, visited: seq<int>, op: Change) {
    match op
    case Added(s) => s !in t.who && s !in visited
    case Dropped(i) => 0 <= i < |t.who|
    case SteppedBack => true
  }

  function Apply(t: Table, op: Change): Table {
    match op
    case Added(s) => t.(who := t.who + [s])
    case Dropped(i) =>
      if 0 <= i < |t.who| then Table(Without(t.who, i), if i < t.ticked then t.ticked - 1 else t.ticked) else t
    case SteppedBack => t.(ticked := t.ticked - 1)
  }

  /** The table moves as the board does. */
  lemma TableFollowsBoard(b: BoardState, who: seq<int>, id: int)
    requires Valid(b) && 0 <= id <= b.count && |who| == b.count + 1
    ensures Apply(Table(who, b.ticked), Dropped(id)) == Table(Without(who, id), RemoveStat(b, id).ticked)
    ensures |Apply(Table(who, b.ticked), Dropped(id)).who| == RemoveStat(b, id).count + 1
  {
    hide RemoveStat;
    RestOfRemoval(b, id);
    assert RemoveStat(b, id).count == b.count - 1;
  }

  // ---- Who has been visited ----------------------------------------------

  /** The visited stats that are still in the table, in the order of their visits. */
  function Kept(visited: seq<int>, who: seq<int>): seq<int> {
    if visited == [] then []
    else
      var last := visited[|visited| - 1];
      Kept(visited[..|visited| - 1], who) + if last in who then [last] else []
  }

  /** Drops every occurrence of x. */
  function Minus(s: seq<int>, x: int): seq<int> {
    if s == [] then []
    else Minus(s[..|s| - 1], x) + if s[|s| - 1] == x then [] else [s[|s| - 1]]
  }

  lemma {:induction false} MinusNothing(s: seq<int>, x: int)
    requires x !in s
    ensures Minus(s, x) == s
  {
    if s != [] {
      MinusNothing(s[..|s| - 1], x);
      assert s == s[..|s| - 1] + [s[|s| - 1]];
    }
  }

  lemma {:induction false} MinusOne(s: seq<int>, i: nat)
    requires Distinct(s) && i < |s|
    ensures Minus(s, s[i]) == Without(s, i)
  {
    var n := |s| - 1;
    if i == n {
      MinusNothing(s[..n], s[n]);
    } else {
      MinusOne(s[..n], i);
      assert s[..n][i] == s[i];
      assert Without(s, i) == Without(s[..n], i) + [s[n]];
    }
  }

  lemma {:induction false} KeptWithout(visited: seq<int>, who: seq<int>, i: nat)
    requires Distinct(who) && i < |who|
    ensures Kept(visited, Without(who, i)) == Minus(Kept(visited, who), who[i])
  {
    if visited != [] {
      var n := |visited| - 1;
      KeptWithout(visited[..n], who, i);
      var k := Kept(visited[..n], who);
      assert visited[n] in Without(who, i) <==> visited[n] in who && visited[n] != who[i] by {
        InWithout(who, i, visited[n]);
      }
      if visited[n] in who {
        assert (k + [visited[n]])[..|k|] == k;
      } else {
        assert k + [] == k;
      }
    }
  }

  lemma InWithout(who: seq<int>, i: nat, x: int)
    requires Distinct(who) && i < |who|
    ensures x in Without(who, i) <==> x in who && x != who[i]
  {
    if x in who && x != who[i] {
      var j :| 0 <= j < |who| && who[j] == x;
      assert Without(who, i)[if j < i then j else j - 1] == x;
    }
  }

  lemma {:induction false} KeptAppended(visited: seq<int>, who: seq<int>, x: int)
    requires x !in visited
    ensures Kept(visited, who + [x]) == Kept(visited, who)
  {
    if visited != [] {
      KeptAppended(visited[..|visited| - 1], who, x);
    }
  }

  lemma {:induction false} KeptIsBoth(visited: seq<int>, who: seq<int>, x: int)
    ensures x in Kept(visited, who) <==> x in visited && x in who
  {
    if visited != [] {
      KeptIsBoth(visited[..|visited| - 1], who, x);
    }
  }

  // ---- One tick ----------------------------------------------------------

  /** The visited stats that survive are the first k, once each and in index order. */
  ghost predicate FirstVisited(t: Table, visited: seq<int>, k: int) {
    0 <= k <= |t.who| && Distinct(t.who) && Kept(visited, t.who) == t.who[..k]
  }

  /** How many visited stats survive one operation. */
  function StillVisited(k: int, op: Change): int {
    if op.Dropped? && op.index < k then k - 1 else k
  }

  lemma OneAdded(t: Table, visited: seq<int>, k: int, s: int)
    requires FirstVisited(t, visited, k) && s !in t.who && s !in visited
    ensures FirstVisited(t.(who := t.who + [s]), visited, k)
  {
    KeptAppended(visited, t.who, s);
    assert (t.who + [s])[..k] == t.who[..k];
  }

  lemma OneDropped(who: seq<int>, visited: seq<int>, k: int, i: int)
    requires 0 <= k <= |who| && Distinct(who) && Kept(visited, who) == who[..k] && 0 <= i < |who|
    ensures var l := if i < k then k - 1 else k;
      Kept(visited, Without(who, i)) == Without(who, i)[..l]
  {
    KeptWithout(visited, who, i);
    WithoutTake(who, k, i);
    if i < k {
      MinusOne(who[..k], i);
    } else {
      MinusNothing(who[..k], who[i]);
    }
  }

  lemma WithoutTake(who: seq<int>, k: nat, i: nat)
    requires k <= |who| && i < |who|
    ensures i < k ==> who[..k][i] == who[i] && Without(who[..k], i) == Without(who, i)[..k - 1]
    ensures k <= i ==> who[..k] == Without(who, i)[..k]
  {
    if i < k {
      assert who[..k][..i] == who[..i];
      assert who[..k][i + 1..] == who[i + 1..][..k - i - 1];
    }
  }

  lemma WithoutDistinct(who: seq<int>, i: nat)
    requires Distinct(who) && i < |who|
    ensures Distinct(Without(who, i))
  {
  }

  lemma OneOp(t: Table, visited: seq<int>, k: int, op: Change)
    requires FirstVisited(t, visited, k) && Legal(t, visited, op)
    ensures FirstVisited(Apply(t, op), visited, StillVisited(k, op))
  {
    match op
    case SteppedBack =>
    case Added(s) =>
      OneAdded(t, visited, k, s);
    case Dropped(i) =>
      OneDropped(t.who, visited, k, i);
      WithoutDistinct(t.who, i);
  }

  ghost predicate LegalTick(t: Table, visited: seq<int>, ops: seq<Change>)
    decreases |ops|
  {
    ops != [] ==> Legal(t, visited, ops[0]) && LegalTick(Apply(t, ops[0]), visited, ops[1..])
  }

  function ApplyAll(t: Table, ops: seq<Change>): Table
    decreases |ops|
  {
    if ops == [] then t else ApplyAll(Apply(t, ops[0]), ops[1..])
  }

  /** How far a tick moves the cursor ahead of the stats that have been visited. It
      starts level; losing a visited stat at or above the cursor puts it ahead,
      losing an unvisited one below it, or stepping back, puts it behind. */
  function Drift(t: Table, k: int, ops: seq<Change>): int
    decreases |ops|
  {
    if ops == [] then 0
    else
      Drift(Apply(t, ops[0]), StillVisited(k, ops[0]), ops[1..])
      + match ops[0]
        case Added(_) => 0
        case SteppedBack => -1
        case Dropped(i) => if t.ticked <= i < k then 1 else if k <= i < t.ticked then -1 else 0
  }

  lemma {:induction false} ManyOps(t: Table, visited: seq<int>, k: int, ops: seq<Change>)
    requires FirstVisited(t, visited, k) && LegalTick(t, visited, ops)
    ensures var r := ApplyAll(t, ops);
      FirstVisited(r, visited, k + r.ticked - t.ticked - Drift(t, k, ops))
    decreases |ops|
  {
    if ops != [] {
      OneOp(t, visited, k, ops[0]);
      ManyOps(Apply(t, ops[0]), visited, StillVisited(k, ops[0]), ops[1..]);
    }
  }

  /** Between two ticks: the cursor stands right after the visited survivors. */
  ghost predicate Level(t: Table, visited: seq<int>) {
    FirstVisited(t, visited, t.ticked)
  }

  /** Visits the stat under the cursor, lets it tick, and moves the cursor on. */
  function Tick(t: Table, ops: seq<Change>): Table {
    var r := ApplyAll(t, ops);
    r.(ticked := r.ticked + 1)
  }

  /** The cursor is level after a tick exactly when the tick did not drift. */
  lemma TickStaysLevel(t: Table, visited: seq<int>, ops: seq<Change>)
    requires Level(t, visited) && t.ticked < |t.who|
    requires LegalTick(t, visited + [t.who[t.ticked]], ops)
    ensures Level(Tick(t, ops), visited + [t.who[t.ticked]]) <==> Drift(t, t.ticked + 1, ops) == 0
    ensures var d := Drift(t, t.ticked + 1, ops); var r := Tick(t, ops);
      FirstVisited(r, visited + [t.who[t.ticked]], r.ticked - d)
  {
    var s := t.who[t.ticked];
    Visit(t, visited);
    ManyOps(t, visited + [s], t.ticked + 1, ops);
    var r := Tick(t, ops);
    assert Kept(visited + [s], r.who) == ApplyAll(t, ops).who[..r.ticked - Drift(t, t.ticked + 1, ops)];
  }

  lemma Visit(t: Table, visited: seq<int>)
    requires Level(t, visited) && t.ticked < |t.who|
    ensures FirstVisited(t, visited + [t.who[t.ticked]], t.ticked + 1)
  {
    var s := t.who[t.ticked];
    assert (visited + [s])[..|visited|] == visited;
    assert t.who[..t.ticked + 1] == t.who[..t.ticked] + [s];
  }

  // ---- Which ticks drift -------------------------------------------------

  /** Removals of other stats and additions do not drift. */
  ghost predicate SparesSelf(t: Table, ops: seq<Change>)
    decreases |ops|
  {
    ops != [] ==>
      && !ops[0].SteppedBack?
      && (ops[0].Dropped? ==> 0 <= ops[0].index < |t.who| && ops[0].index != t.ticked)
      && SparesSelf(Apply(t, ops[0]), ops[1..])
  }

  lemma {:induction false} SparingSelfIsLevel(t: Table, ops: seq<Change>)
    requires SparesSelf(t, ops)
    ensures Drift(t, t.ticked + 1, ops) == 0
    decreases |ops|
  {
    if ops != [] {
      SparingSelfIsLevel(Apply(t, ops[0]), ops[1..]);
    }
  }

  /** After a removal of oneself and the matching step back, a tick stays level as
      long as it removes nothing at the cursor. */
  lemma {:induction false} RemovingSelfIsLevel(t: Table, before: seq<Change>, after: seq<Change>)
    requires SparesSelf(t, before) && 0 <= ApplyAll(t, before).ticked < |ApplyAll(t, before).who|
    requires var u := ApplyAll(t, before);
      SparesSelf(Apply(Apply(u, Dropped(u.ticked)), SteppedBack), after)
    ensures Drift(t, t.ticked + 1, before + [Dropped(ApplyAll(t, before).ticked), SteppedBack] + after) == 0
    decreases |before|
  {
    var self := ApplyAll(t, before).ticked;
    var ops := before + [Dropped(self), SteppedBack] + after;
    if before == [] {
      assert ops[1..] == [SteppedBack] + after && ops[1..][1..] == after;
      SparingSelfIsLevel(Apply(Apply(t, Dropped(self)), SteppedBack), after);
    } else {
      assert ops[1..] == before[1..] + [Dropped(self), SteppedBack] + after;
      RemovingSelfIsLevel(Apply(t, before[0]), before[1..], after);
    }
  }

  /** The stars, slimes and bombs that remove themselves and do not step back skip
      the stat after them; so does an attacker whose victim stood just below it
      (BoardAttack steps back before it removes the victim); and stepping back
      without being removed visits the same stat twice. */
  lemma TicksThatDrift(t: Table)
    requires 0 < t.ticked < |t.who|
    ensures Drift(t, t.ticked + 1, [Dropped(t.ticked)]) == 1
    ensures Drift(t, t.ticked + 1, [Dropped(t.ticked), SteppedBack, Dropped(t.ticked - 1)]) == 1
    ensures Drift(t, t.ticked + 1, [SteppedBack]) == -1
  {
    var c, k := t.ticked, t.ticked + 1;
    var u := Apply(t, Dropped(c));
    assert [Dropped(c)][1..] == [] && Drift(t, k, [Dropped(c)]) == Drift(u, c, []) + 1;
    assert [SteppedBack][1..] == [] && Drift(t, k, [SteppedBack]) == Drift(Apply(t, SteppedBack), k, []) - 1;
    var a: seq<Change> := [Dropped(c), SteppedBack, Dropped(c - 1)];
    assert a[1..] == [SteppedBack, Dropped(c - 1)] && a[1..][1..] == [Dropped(c - 1)];
    assert [Dropped(c - 1)][1..] == [];
    assert Drift(Apply(u, SteppedBack), c, [Dropped(c - 1)]) == 1;
    assert Drift(u, c, a[1..]) == 0;
  }

  /** Ahead, the stat the cursor jumped over has not been visited; behind, the stat
      it comes to has been. */
  lemma DriftSkipsOrRepeats(t: Table, visited: seq<int>, ops: seq<Change>)
    requires Level(t, visited) && t.ticked < |t.who|
    requires LegalTick(t, visited + [t.who[t.ticked]], ops)
    ensures var d, r := Drift(t, t.ticked + 1, ops), Tick(t, ops);
      && (forall i :: 0 <= i < |r.who| && r.ticked - d <= i < r.ticked ==> r.who[i] !in visited + [t.who[t.ticked]])
      && (d < 0 && 0 <= r.ticked ==> r.ticked < |r.who| && r.who[r.ticked] in visited + [t.who[t.ticked]])
  {
    var d, r := Drift(t, t.ticked + 1, ops), Tick(t, ops);
    var v := visited + [t.who[t.ticked]];
    TickStaysLevel(t, visited, ops);
    var k := r.ticked - d;
    forall i | 0 <= i < |r.who|
      ensures r.who[i] in v <==> i < k
    {
      KeptIsBoth(v, r.who, r.who[i]);
      assert r.who[i] in r.who[..k] <==> i < k;
    }
  }

  // ---- A whole cycle -----------------------------------------------------

  /** A tick that adds stats and removes others, and if it removes its own stat steps
      back at once and from then on removes nothing at the cursor. */
  ghost predicate Tame(t: Table, ops: seq<Change>)
    decreases |ops|
  {
    ops != [] ==>
      if ops[0] == Dropped(t.ticked) then
        && |ops| >= 2 && ops[1].SteppedBack? && 0 <= t.ticked < |t.who|
        && SparesSelf(Apply(Apply(t, ops[0]), ops[1]), ops[2..])
      else
        && !ops[0].SteppedBack? && (ops[0].Dropped? ==> 0 <= ops[0].index < |t.who|)
        && Tame(Apply(t, ops[0]), ops[1..])
  }

  lemma {:induction false} TameIsLevel(t: Table, ops: seq<Change>)
    requires Tame(t, ops)
    ensures Drift(t, t.ticked + 1, ops) == 0
    decreases |ops|
  {
    if ops == [] {
    } else if ops[0] == Dropped(t.ticked) {
      assert ops == [] + [Dropped(t.ticked), SteppedBack] + ops[2..];
      RemovingSelfIsLevel(t, [], ops[2..]);
    } else {
      TameIsLevel(Apply(t, ops[0]), ops[1..]);
    }
  }

  /** Every tick of the cycle is legal and tame. */
  ghost predicate TameTicks(t: Table, visited: seq<int>, ticks: seq<seq<Change>>)
    decreases |ticks|
  {
    ticks != [] && 0 <= t.ticked < |t.who| ==>
      && LegalTick(t, visited + [t.who[t.ticked]], ticks[0]) && Tame(t, ticks[0])
      && TameTicks(Tick(t, ticks[0]), visited + [t.who[t.ticked]], ticks[1..])
  }

  /** The table after one cycle, and who has been visited in it, visit by visit. */
  function CycleFrom(t: Table, visited: seq<int>, ticks: seq<seq<Change>>): (Table, seq<int>)
    decreases |ticks|
  {
    if ticks == [] || !(0 <= t.ticked < |t.who|) then (t, visited)
    else CycleFrom(Tick(t, ticks[0]), visited + [t.who[t.ticked]], ticks[1..])
  }

  /** The stats below the cursor have been visited once, the others not yet. */
  ghost predicate OnceBelow(t: Table, visited: seq<int>) {
    forall i :: 0 <= i < |t.who| ==> multiset(visited)[t.who[i]] == if i < t.ticked then 1 else 0
  }

  lemma {:induction false} KeptCounts(visited: seq<int>, who: seq<int>, x: int)
    requires x in who
    ensures multiset(Kept(visited, who))[x] == multiset(visited)[x]
  {
    if visited != [] {
      var n := |visited| - 1;
      assert visited == visited[..n] + [visited[n]];
      KeptCounts(visited[..n], who, x);
    }
  }

  lemma {:induction false} OccursOnce(who: seq<int>, k: int, i: int)
    requires Distinct(who) && 0 <= k <= |who| && 0 <= i < |who|
    ensures multiset(who[..k])[who[i]] == if i < k then 1 else 0
    decreases k
  {
    if k > 0 {
      assert who[..k] == who[..k - 1] + [who[k - 1]];
      OccursOnce(who, k - 1, i);
    }
  }

  lemma LevelCounts(t: Table, visited: seq<int>)
    requires Level(t, visited)
    ensures OnceBelow(t, visited)
  {
    forall i | 0 <= i < |t.who|
      ensures multiset(visited)[t.who[i]] == if i < t.ticked then 1 else 0
    {
      KeptCounts(visited, t.who, t.who[i]);
      OccursOnce(t.who, t.ticked, i);
    }
  }

  /** Whatever tame ticks do to the table, a cycle visits its survivors in index order,
      each once, up to the cursor; and a cycle that is not cut short visits them all. */
  lemma {:induction false} TameCycleVisitsAll(t: Table, visited: seq<int>, ticks: seq<seq<Change>>)
    requires Level(t, visited) && TameTicks(t, visited, ticks)
    ensures var (r, v) := CycleFrom(t, visited, ticks);
      && Level(r, v) && OnceBelow(r, v) && visited <= v
      && (|v| < |visited| + |ticks| ==> r.ticked == |r.who| && Kept(v, r.who) == r.who)
    decreases |ticks|
  {
    if ticks == [] || t.ticked >= |t.who| {
      LevelCounts(t, visited);
      assert t.who[..|t.who|] == t.who;
    } else {
      TameIsLevel(t, ticks[0]);
      TickStaysLevel(t, visited, ticks[0]);
      TameCycleVisitsAll(Tick(t, ticks[0]), visited + [t.who[t.ticked]], ticks[1..]);
    }
  }

  class Schedule {
    var Who: seq<int>
    var CurrentStatTicked: int
    ghost var Visited: seq<int>

    /** A tick carried out on the table, one change after the other. */
    method TickProc(ops: seq<Change>)
      requires LegalTick(Table(Who, CurrentStatTicked), Visited, ops)
      modifies this`Who, this`CurrentStatTicked
      ensures Table(Who, CurrentStatTicked) == ApplyAll(old(Table(Who, CurrentStatTicked)), ops)
    {
      var n := 0;
      while n < |ops|
        invariant 0 <= n <= |ops|
        invariant LegalTick(Table(Who, CurrentStatTicked), Visited, ops[n..])
        invariant ApplyAll(Table(Who, CurrentStatTicked), ops[n..]) == ApplyAll(old(Table(Who, CurrentStatTicked)), ops)
      {
        assert ops[n..][1..] == ops[n + 1..];
        match ops[n] {
          case Added(s) =>
            Who := Who + [s];
          case Dropped(i) =>
            if i < CurrentStatTicked {
              CurrentStatTicked := CurrentStatTicked - 1;
            }
            Who := Without(Who, i);
          case SteppedBack =>
            CurrentStatTicked := CurrentStatTicked - 1;
        }
        n := n + 1;
      }
    }

    /** The loop of one cycle over the table. */
    method Cycle(ticks: seq<seq<Change>>) returns (done: bool)
      requires CurrentStatTicked == 0 && Visited == [] && Distinct(Who)
      requires TameTicks(Table(Who, 0), [], ticks)
      modifies this
      ensures (Table(Who, CurrentStatTicked), Visited) == CycleFrom(old(Table(Who, 0)), [], ticks)
      ensures OnceBelow(Table(Who, CurrentStatTicked), Visited)
      ensures done ==> CurrentStatTicked == |Who| && Kept(Visited, Who) == Who
    {
      ghost var t0 := Table(Who, 0);
      var n := 0;
      while CurrentStatTicked < |Who| && n < |ticks|
        invariant 0 <= n <= |ticks| && Level(Table(Who, CurrentStatTicked), Visited)
        invariant TameTicks(Table(Who, CurrentStatTicked), Visited, ticks[n..])
        invariant CycleFrom(Table(Who, CurrentStatTicked), Visited, ticks[n..]) == CycleFrom(t0, [], ticks)
        decreases |ticks| - n
      {
        ghost var t, visited := Table(Who, CurrentStatTicked), Visited;
        assert ticks[n..][1..] == ticks[n + 1..];
        TameIsLevel(t, ticks[n]);
        TickStaysLevel(t, visited, ticks[n]);
        Visited := Visited + [Who[CurrentStatTicked]];
        TickProc(ticks[n]);
        CurrentStatTicked := CurrentStatTicked + 1;
        n := n + 1;
      }
      done := CurrentStatTicked >= |Who|;
      LevelCounts(Table(Who, CurrentStatTicked), Visited);
      assert Who[..|Who|] == Who;
    }
  }
}
