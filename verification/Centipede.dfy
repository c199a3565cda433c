/** Centipedes: doubly linked chains inside the stat table (engine/elements.go).
    A stuck head turns its whole chain around in place, and removing any member
    splits the chain (engine/game.go, RemoveStat). */
module Centipede {
  import opened GameVars
  import opened BoardSpec
  import opened StatTable
  import opened Game

  ghost predicate Distinct(ids: seq<int>) {
    forall j, k :: 0 <= j < k < |ids| ==> ids[j] != ids[k]
  }

  ghost predicate Members(ids: seq<int>, count: int) {
    forall k :: 0 <= k < |ids| ==> 0 < ids[k] <= count
  }

  /** A link to the k-th member, or the given one when there is none. */
  function Link(ids: seq<int>, k: int, none: Int16): Int16 {
    if 0 <= k < |ids| && -32768 <= ids[k] < 32768 then ids[k] else none
  }

  ghost predicate LinkedAt(stats: seq<TStat>, ids: seq<int>, k: int)
    requires 0 <= k < |ids| && 0 <= ids[k] < |stats|
  {
    && stats[ids[k]].Follower == Link(ids, k + 1, -1)
    && (k > 0 ==> stats[ids[k]].Leader as int == ids[k - 1])
  }

  /** From its head, the followers of a centipede are `ids`, in this order, and each
      is led by the one before it. Nothing is said of the head's own leader: after
      a turn it is stale. */
  ghost predicate Chain(stats: seq<TStat>, count: int, ids: seq<int>) {
    && count < |stats| && count <= MAX_STAT && |ids| > 0 && Distinct(ids) && Members(ids, count)
    && forall k {:trigger LinkedAt(stats, ids, k)} :: 0 <= k < |ids| ==> LinkedAt(stats, ids, k)
  }

  /** The chain is a function of the table and the head. */
  lemma {:induction false} OneChainPerHead(stats: seq<TStat>, count: int, ids: seq<int>, jds: seq<int>, k: nat)
    requires Chain(stats, count, ids) && Chain(stats, count, jds) && ids[0] == jds[0] && k < |ids|
    ensures |ids| == |jds| && ids[k] == jds[k]
    decreases |ids| + |jds| - k
  {
    SamePrefix(stats, count, ids, jds, |ids| - 1);
    SamePrefix(stats, count, jds, ids, |jds| - 1);
    SamePrefix(stats, count, ids, jds, k);
  }

  lemma {:induction false} SamePrefix(stats: seq<TStat>, count: int, ids: seq<int>, jds: seq<int>, k: nat)
    requires Chain(stats, count, ids) && Chain(stats, count, jds) && ids[0] == jds[0] && k < |ids|
    ensures k < |jds| && ids[k] == jds[k]
  {
    if k > 0 {
      SamePrefix(stats, count, ids, jds, k - 1);
      assert LinkedAt(stats, ids, k - 1) && LinkedAt(stats, jds, k - 1);
    }
  }

  function Reversed(ids: seq<int>): (r: seq<int>)
    ensures |r| == |ids| && forall k :: 0 <= k < |r| ==> r[k] == ids[|ids| - 1 - k]
  {
    seq(|ids|, k requires 0 <= k < |ids| => ids[|ids| - 1 - k])
  }

  /** What the turn writes: every member follows the one that led it and is led by
      the one that followed it; the new head keeps its old leader. */
  ghost function TurnedMember(s: TStat, ids: seq<int>, k: nat): TStat
    requires k < |ids|
  {
    s.(Follower := Link(ids, k - 1, -1), Leader := Link(ids, k + 1, if k == 0 then -1 else s.Leader))
  }

  ghost predicate TurnedAt(before: seq<TStat>, after: seq<TStat>, ids: seq<int>, k: int)
    requires 0 <= k < |ids| && 0 <= ids[k] < |before| && |after| == |before|
  {
    after[ids[k]] == TurnedMember(before[ids[k]], ids, k)
  }

  ghost predicate Turned(before: seq<TStat>, after: seq<TStat>, ids: seq<int>)
    requires forall k :: 0 <= k < |ids| ==> 0 <= ids[k] < |before|
  {
    && |after| == |before|
    && (forall i :: 0 <= i < |before| && i !in ids ==> after[i] == before[i])
    && forall k {:trigger TurnedAt(before, after, ids, k)} :: 0 <= k < |ids| ==> TurnedAt(before, after, ids, k)
  }

  lemma TurnedIsReversed(before: seq<TStat>, after: seq<TStat>, count: int, ids: seq<int>)
    requires Chain(before, count, ids) && Turned(before, after, ids)
    ensures Chain(after, count, Reversed(ids))
    ensures |ids| > 1 ==> after[Reversed(ids)[0]].Leader == Reversed(ids)[1]
  {
    var r, n := Reversed(ids), |ids|;
    forall k | 0 <= k < n
      ensures LinkedAt(after, r, k)
    {
      assert TurnedAt(before, after, ids, n - 1 - k) && LinkedAt(before, ids, n - 1 - k);
    }
    if n > 1 {
      assert TurnedAt(before, after, ids, n - 1) && LinkedAt(before, ids, n - 1);
    }
  }

  /** Turning twice gives the first chain back, and every other field of every stat. */
  lemma TurnedTwice(before: seq<TStat>, once: seq<TStat>, twice: seq<TStat>, count: int, ids: seq<int>)
    requires Chain(before, count, ids)
    requires Turned(before, once, ids) && Turned(once, twice, Reversed(ids))
    ensures Chain(twice, count, ids)
    ensures forall i :: 0 <= i < |before| ==> SameStat(twice[i], before[i]) && twice[i].Follower == before[i].Follower
    ensures forall i :: 0 <= i < |before| && i != ids[0] ==> twice[i].Leader == before[i].Leader
  {
    var r, n := Reversed(ids), |ids|;
    TurnedIsReversed(before, once, count, ids);
    TurnedIsReversed(once, twice, count, r);
    assert Reversed(r) == ids;
    forall i | 0 <= i < |before|
      ensures SameStat(twice[i], before[i]) && twice[i].Follower == before[i].Follower
      ensures i != ids[0] ==> twice[i].Leader == before[i].Leader
    {
      if i in ids {
        var k :| 0 <= k < n && ids[k] == i;
        assert r[n - 1 - k] == i;
        assert TurnedAt(before, once, ids, k) && TurnedAt(once, twice, r, n - 1 - k);
        assert LinkedAt(before, ids, k) && LinkedAt(twice, ids, k);
      } else {
        assert i !in r;
      }
    }
  }

  /** The tiles of the two ends change places: segment where the head was, head at the far end. */
  ghost function EndsSwapped(b: BoardState, ids: seq<int>): map<Coord, TTile>
    requires Valid(b) && Chain(b.stats, b.count, ids)
  {
    var first, last := b.stats[ids[0]], b.stats[ids[|ids| - 1]];
    var t := b.tiles[(first.X, first.Y) := b.tiles[(first.X as int, first.Y as int)].(Element := E_CENTIPEDE_SEGMENT)];
    t[(last.X, last.Y) := t[(last.X as int, last.Y as int)].(Element := E_CENTIPEDE_HEAD)]
  }

  // ---- How a chain looks -------------------------------------------------

  function Place(stats: seq<TStat>, id: int): Coord
    requires 0 <= id < |stats|
  {
    (stats[id].X as int, stats[id].Y as int)
  }

  /** The members stand on different squares; the first shows a centipede's head (44),
      every other a segment (45). */
  ghost predicate LooksLike(tiles: map<Coord, TTile>, stats: seq<TStat>, ids: seq<int>) {
    && |ids| > 0 && (forall k :: 0 <= k < |ids| ==> 0 <= ids[k] < |stats| && Place(stats, ids[k]) in tiles)
    && (forall j, k :: 0 <= j < k < |ids| ==> Place(stats, ids[j]) != Place(stats, ids[k]))
    && tiles[Place(stats, ids[0])].Element == 44
    && forall k :: 1 <= k < |ids| ==> tiles[Place(stats, ids[k])].Element == 45
  }

  /** Only the elements of the two ends differ: 44 at the end that leads now, 45 at the
      one that led before. */
  ghost predicate OnlyEndsDiffer(was: map<Coord, TTile>, now: map<Coord, TTile>, from: Coord, to: Coord) {
    && now.Keys == was.Keys && to in now
    && (forall p :: p in now ==> now[p].Color == was[p].Color)
    && (forall p :: p in now && p != from && p != to ==> now[p] == was[p])
    && now[to].Element == 44 && (from in now && from != to ==> now[from].Element == 45)
  }

  /** After a turn the squares tell of the reversed chain what they told of the chain before. */
  lemma TurnedLooksReversed(b: BoardState, after: seq<TStat>, ids: seq<int>)
    requires Valid(b) && Chain(b.stats, b.count, ids) && Turned(b.stats, after, ids)
    ensures var t := EndsSwapped(b, ids);
      && (LooksLike(b.tiles, b.stats, ids) ==> LooksLike(t, after, Reversed(ids)))
      && OnlyEndsDiffer(b.tiles, t, Place(b.stats, ids[0]), Place(b.stats, ids[|ids| - 1]))
    ensures forall k :: 0 <= k < |ids| ==> Place(after, ids[k]) == Place(b.stats, ids[k])
  {
    TurnedSame(b.stats, after, ids);
    var r, n := Reversed(ids), |ids|;
    forall k | 0 <= k < n
      ensures Place(after, ids[k]) == Place(b.stats, ids[k])
    {
      assert SameStat(after[ids[k]], b.stats[ids[k]]);
    }
    if LooksLike(b.tiles, b.stats, ids) {
      var t := EndsSwapped(b, ids);
      forall k | 0 <= k < n
        ensures 0 <= r[k] < |after| && Place(after, r[k]) in t
        ensures t[Place(after, r[k])].Element == if k == 0 then 44 else 45
      {
        assert r[k] == ids[n - 1 - k];
      }
    }
  }

  /** A head that can go nowhere (StepX == 0 && StepY == 0). */
  method TurnAround(e: Engine, statId: int, ghost ids: seq<int>)
    requires e.Ok() && Chain(e.Stats[..], e.StatCount, ids) && ids[0] == statId
    modifies e.Stats, e.Tiles
    ensures e.Ok() && Turned(old(e.Stats[..]), e.Stats[..], ids) && e.Grid() == EndsSwapped(old(e.Value()), ids)
    ensures LooksLike(old(e.Grid()), old(e.Stats[..]), ids) ==> LooksLike(e.Grid(), e.Stats[..], Reversed(ids))
    ensures OnlyEndsDiffer(old(e.Grid()), e.Grid(), Place(old(e.Stats[..]), ids[0]),
      Place(old(e.Stats[..]), ids[|ids| - 1]))
  {
    ghost var b, n := e.Value(), |ids|;
    var x, y := e.Stats[statId].X, e.Stats[statId].Y;
    e.SetTile(x, y, e.Tiles[x, y].(Element := E_CENTIPEDE_SEGMENT));
    ghost var tiles := e.Grid();
    var id := TurnLinks(e, statId, ids);
    assert forall i :: 0 <= i < |b.stats| ==> SameStat(e.Stats[..][i], b.stats[i]) by {
      TurnedSame(b.stats, e.Stats[..], ids);
    }
    assert id == ids[n - 1];
    x, y := e.Stats[id].X, e.Stats[id].Y;
    assert (x, y) == (b.stats[id].X, b.stats[id].Y);
    e.GridAt(x, y);
    e.SetTile(x, y, e.Tiles[x, y].(Element := E_CENTIPEDE_HEAD));
    TurnedLooksReversed(b, e.Stats[..], ids);
  }

  lemma TurnedSame(before: seq<TStat>, after: seq<TStat>, ids: seq<int>)
    requires forall k :: 0 <= k < |ids| ==> 0 <= ids[k] < |before|
    requires Turned(before, after, ids)
    ensures forall i :: 0 <= i < |before| ==> SameStat(after[i], before[i])
  {
    forall i | 0 <= i < |before|
      ensures SameStat(after[i], before[i])
    {
      if i in ids {
        var k :| 0 <= k < |ids| && ids[k] == i;
        assert TurnedAt(before, after, ids, k);
      }
    }
  }

  /** The first k members have been turned; the head has lost its stale leader. */
  ghost predicate Turning(before: seq<TStat>, now: seq<TStat>, ids: seq<int>, k: nat)
    requires forall k :: 0 <= k < |ids| ==> 0 <= ids[k] < |before|
  {
    && |now| == |before| && k <= |ids|
    && (forall i :: 0 <= i < |before| && i !in ids ==> now[i] == before[i])
    && (forall m {:trigger TurnedAt(before, now, ids, m)} :: 0 <= m < k ==> TurnedAt(before, now, ids, m))
    && forall m {:trigger ids[m]} :: k <= m < |ids| ==>
      now[ids[m]] == if m == 0 then before[ids[m]].(Leader := -1) else before[ids[m]]
  }

  lemma TurnNext(before: seq<TStat>, now: seq<TStat>, count: int, ids: seq<int>, k: nat, later: seq<TStat>)
    requires Chain(before, count, ids) && k < |ids| && Turning(before, now, ids, k)
    requires var s := now[ids[k]];
      later == now[ids[k] := s.(Follower := s.Leader, Leader := Link(ids, k + 1, s.Leader))]
    ensures Turning(before, later, ids, k + 1)
  {
    assert LinkedAt(before, ids, k);
    assert TurnedAt(before, later, ids, k);
    forall m | 0 <= m < k
      ensures TurnedAt(before, later, ids, m)
    {
      assert TurnedAt(before, now, ids, m);
    }
  }

  lemma TurnLink(before: seq<TStat>, now: seq<TStat>, count: int, ids: seq<int>, k: nat)
    requires Chain(before, count, ids) && k < |ids| && Turning(before, now, ids, k)
    ensures 0 < ids[k] < |now| && now[ids[k]].Follower == Link(ids, k + 1, -1)
    ensures k + 1 < |ids| ==> Link(ids, k + 1, -1) as int == ids[k + 1] > 0
  {
    assert LinkedAt(before, ids, k);
  }

  /** The loop that swaps follower and leader along the chain; returns the far end. */
  method TurnLinks(e: Engine, statId: int, ghost ids: seq<int>) returns (id: int)
    requires e.Shaped() && Chain(e.Stats[..], e.StatCount, ids) && ids[0] == statId
    modifies e.Stats
    ensures Turned(old(e.Stats[..]), e.Stats[..], ids) && id == ids[|ids| - 1]
  {
    ghost var n, before := |ids|, e.Stats[..];
    e.Stats[statId] := e.Stats[statId].(Leader := -1);
    id := statId;
    ghost var k := 0;
    ghost var now := e.Stats[..];
    assert Turning(before, now, ids, 0);
    TurnLink(before, now, e.StatCount, ids, 0);
    hide Turning, Chain;
    while e.Stats[id].Follower > 0
      invariant 0 <= k < n && id == ids[k] && e.Stats[..] == now
      invariant Chain(before, e.StatCount, ids) && Turning(before, now, ids, k)
      invariant 0 < id < e.Stats.Length && now[id].Follower == Link(ids, k + 1, -1)
      decreases n - k
    {
      TurnLink(before, now, e.StatCount, ids, k);
      var tmp := e.Stats[id].Follower;
      e.Stats[id] := e.Stats[id].(Follower := e.Stats[id].Leader, Leader := tmp);
      TurnNext(before, now, e.StatCount, ids, k, e.Stats[..]);
      now := e.Stats[..];
      id := tmp;
      k := k + 1;
      TurnLink(before, now, e.StatCount, ids, k);
    }
    TurnLink(before, now, e.StatCount, ids, k);
    e.Stats[id] := e.Stats[id].(Follower := e.Stats[id].Leader);
    TurnNext(before, now, e.StatCount, ids, k, e.Stats[..]);
    AllTurned(before, e.Stats[..], e.StatCount, ids);
  }

  lemma AllTurned(before: seq<TStat>, now: seq<TStat>, count: int, ids: seq<int>)
    requires Chain(before, count, ids) && Turning(before, now, ids, |ids|)
    ensures Turned(before, now, ids)
  {
  }

  // ---- Removing a member -------------------------------------------------

  function RenamedAll(ids: seq<int>, id: int): (r: seq<int>)
    ensures |r| == |ids| && forall k :: 0 <= k < |r| ==> r[k] == Renamed(ids[k], id)
  {
    seq(|ids|, k requires 0 <= k < |ids| => Renamed(ids[k], id))
  }

  /** A stretch of a chain, as far as the member that is to go, or to the end. */
  ghost predicate Piece(b: BoardState, id: int, ids: seq<int>)
    requires Valid(b)
  {
    && |ids| > 0 && Distinct(ids) && Members(ids, b.count) && id !in ids
    && b.stats[ids[|ids| - 1]].Follower as int in {-1, id}
    && (forall k {:trigger LinkedAt(b.stats, ids, k)} :: 0 <= k < |ids| - 1 ==> LinkedAt(b.stats, ids, k))
    && (|ids| > 1 ==> b.stats[ids[|ids| - 1]].Leader as int == ids[|ids| - 2])
  }

  lemma RemovedPiece(b: BoardState, id: int, ids: seq<int>)
    requires Valid(b) && 0 < id <= b.count && Piece(b, id, ids)
    ensures Chain(RemoveStat(b, id).stats, b.count - 1, RenamedAll(ids, id))
  {
    hide RemoveStat;
    var r, stats := RenamedAll(ids, id), RemoveStat(b, id).stats;
    forall k | 0 <= k < |ids|
      ensures LinkedAt(stats, r, k)
    {
      SurvivorSlot(b, id, ids[k]);
      assert k < |ids| - 1 ==> LinkedAt(b.stats, ids, k);
    }
  }

  /** Removing a stat keeps every centipede it is not part of. */
  lemma RemovalKeepsChain(b: BoardState, id: int, ids: seq<int>)
    requires Valid(b) && 0 < id <= b.count && Chain(b.stats, b.count, ids) && id !in ids
    ensures Chain(RemoveStat(b, id).stats, b.count - 1, RenamedAll(ids, id))
  {
    hide RemoveStat;
    assert LinkedAt(b.stats, ids, |ids| - 1);
    RemovedPiece(b, id, ids);
  }

  lemma FrontPiece(b: BoardState, ids: seq<int>, m: nat)
    requires Valid(b) && Chain(b.stats, b.count, ids) && 0 < m < |ids|
    ensures Piece(b, ids[m], ids[..m])
  {
    forall k | 0 <= k < m
      ensures k < m - 1 ==> LinkedAt(b.stats, ids[..m], k)
    {
      assert LinkedAt(b.stats, ids, k);
    }
    assert LinkedAt(b.stats, ids, m - 1);
  }

  lemma RestPiece(b: BoardState, ids: seq<int>, m: nat)
    requires Valid(b) && Chain(b.stats, b.count, ids) && m + 1 < |ids|
    ensures Piece(b, ids[m], ids[m + 1..])
  {
    var rest := ids[m + 1..];
    forall k | 0 <= k < |rest|
      ensures LinkedAt(b.stats, rest, k)
    {
      assert LinkedAt(b.stats, ids, m + 1 + k);
    }
    assert LinkedAt(b.stats, rest, |rest| - 1);
  }

  /** Removing the m-th member splits the chain in two, and the second part's head is loose. */
  lemma RemovalSplitsChain(b: BoardState, ids: seq<int>, m: nat)
    requires Valid(b) && Chain(b.stats, b.count, ids) && m < |ids|
    ensures var r := RemoveStat(b, ids[m]);
      && (m > 0 ==> Chain(r.stats, r.count, RenamedAll(ids[..m], ids[m])))
      && (m + 1 < |ids| ==> Chain(r.stats, r.count, RenamedAll(ids[m + 1..], ids[m]))
                            && r.stats[RenamedAll(ids[m + 1..], ids[m])[0]].Leader == -1)
  {
    var id := ids[m];
    assert RemoveStat(b, id).count == b.count - 1;
    hide RemoveStat;
    if m > 0 {
      FrontPiece(b, ids, m);
      RemovedPiece(b, id, ids[..m]);
    }
    if m + 1 < |ids| {
      RestPiece(b, ids, m);
      RemovedPiece(b, id, ids[m + 1..]);
      assert LinkedAt(b.stats, ids, m + 1);
      assert RenamedAll(ids[m + 1..], id)[0] == Renamed(ids[m + 1], id);
      SurvivorSlot(b, id, ids[m + 1]);
    }
  }
}
