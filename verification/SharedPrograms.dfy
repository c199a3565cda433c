/** Shared programs in an editing session (engine/game.go, engine/editor_session.go).
    Closing a board leaves, in memory too, minus the number of an earlier stat in place
    of the length of a program they share; RemoveStat does not rename those numbers. */
module SharedPrograms {
  import opened GameVars
  import opened BoardCodec
  import opened BoardSpec
  import opened Serialize
  import opened StatTable

  /** Stat i comes back with the program it has, or with none if it has none. */
  predicate Kept(stats: seq<TStat>, slots: seq<TStat>, i: nat)
    requires i < |stats| <= STAT_SLOTS == |slots|
  {
    var r := Restored(stats, slots, i);
    if stats[i].DataLen == 0 then r.DataLen == 0 else r.Data == stats[i].Data && r.DataLen == |stats[i].Data|
  }

  // ---- One close and one open --------------------------------------------

  /** Where the references that lead down from stat i end. */
  function Root(stats: seq<TStat>, i: nat): (j: nat)
    requires i < |stats| <= STAT_SLOTS
    ensures j <= i && !(0 < -(ClosedLen(stats, j) as int) < j)
    decreases i
  {
    var k := -(ClosedLen(stats, i) as int);
    if 0 < k < i then Root(stats, k) else i
  }

  /** They end at the stat's own program: stored there, or found in a slot further up
      that has not been read again yet. */
  predicate Rooted(stats: seq<TStat>, slots: seq<TStat>, i: nat)
    requires i < |stats| <= STAT_SLOTS == |slots|
  {
    stats[i].DataLen != 0 ==>
      var j := Root(stats, i);
      var k := -(ClosedLen(stats, j) as int);
      if k < 0 then stats[j].Data == stats[i].Data
      else j < k < STAT_SLOTS && slots[k].Data == stats[i].Data && slots[k].DataLen == |stats[i].Data|
  }

  lemma {:induction false} RestoredFromRoot(stats: seq<TStat>, slots: seq<TStat>, i: nat)
    requires i < |stats| <= STAT_SLOTS == |slots|
    ensures var r, t := Restored(stats, slots, i), Restored(stats, slots, Root(stats, i));
      r == stats[i].(Data := t.Data, DataLen := t.DataLen)
    decreases i
  {
    hide ClosedLen;
    var k := -(ClosedLen(stats, i) as int);
    if 0 < k < i {
      RestoredFromRoot(stats, slots, k);
    }
  }

  /** A close and an open bring a stat's program back exactly when it is rooted. */
  lemma ProgramComesBack(stats: seq<TStat>, slots: seq<TStat>, i: nat)
    requires AllMeasured(stats) && i < |stats| && |slots| == STAT_SLOTS
    ensures Kept(stats, slots, i) <==> Rooted(stats, slots, i)
  {
    RestoredFromRoot(stats, slots, i);
    var j := Root(stats, i);
    assert Measured(stats[i]) && Measured(stats[j]);
    hide Root;
  }

  // ---- Close, remove, close, open ----------------------------------------

  predicate SameProgram(s: TStat, t: TStat) { s.Data == t.Data && s.DataLen == t.DataLen }

  /** The table in memory after a close and the removal of stat id. */
  ghost predicate RemovedAfterClose(stats: seq<TStat>, id: int, now: seq<TStat>) {
    && 0 <= id < |stats| <= STAT_SLOTS && |now| == |stats| - 1
    && forall i :: 0 <= i < |now| ==> SameProgram(now[i], Closed(stats)[KeyBefore(i, id)])
  }

  /** The reference the first close stores for a survivor points below the removed stat. */
  predicate PointsBelow(stats: seq<TStat>, id: int, i: nat)
    requires i < |stats| <= STAT_SLOTS
  {
    i != id && ClosedLen(stats, i) < 0 ==> -(ClosedLen(stats, i) as int) < id
  }

  lemma OwnersStayOwners(stats: seq<TStat>, id: int, now: seq<TStat>, i: nat)
    requires AllMeasured(stats) && NoReferences(stats) && RemovedAfterClose(stats, id, now) && i < |now|
    ensures ClosedLen(now, i) == now[i].DataLen == ClosedLen(stats, KeyBefore(i, id))
  {
    var o := KeyBefore(i, id);
    assert SameProgram(now[i], Closed(stats)[o]);
    if now[i].DataLen > 0 {
      assert LastTwin(stats, o, o) == 0;
      forall j | 1 <= j < i
        ensures now[j].Data != now[i].Data
      {
        assert SameProgram(now[j], Closed(stats)[KeyBefore(j, id)]);
      }
    }
  }

  /** As long as every reference points below the removed stat, all programs come back. */
  lemma {:induction false} PointedBelowKept(stats: seq<TStat>, id: int, now: seq<TStat>, slots: seq<TStat>, i: nat)
    requires AllMeasured(stats) && NoReferences(stats) && NoStaleTwin(stats) && RemovedAfterClose(stats, id, now)
    requires |slots| == STAT_SLOTS && i < |now| && forall o :: 0 <= o < |stats| ==> PointsBelow(stats, id, o)
    ensures Kept(now, slots, i)
    decreases i
  {
    var o := KeyBefore(i, id);
    OwnersStayOwners(stats, id, now, i);
    assert Measured(stats[o]) && PointsBelow(stats, id, o) && SameProgram(now[i], Closed(stats)[o]);
    var k := -(ClosedLen(stats, o) as int);
    if k > 0 {
      assert k < id && k < i && stats[k].Data == stats[o].Data && stats[k].DataLen > 0 by {
        assert Measured(stats[k]);
      }
      PointedBelowKept(stats, id, now, slots, k);
      assert SameProgram(now[k], Closed(stats)[k]);
      hide ClosedLen;
    }
  }

  /** Otherwise a program is lost: the one whose reference points at or above the
      removed stat, or that of the stat which has moved down to where it points. */
  lemma PointedAboveLost(stats: seq<TStat>, id: int, now: seq<TStat>, slots: seq<TStat>, o: nat)
    requires AllMeasured(stats) && NoReferences(stats) && RemovedAfterClose(stats, id, now)
    requires |slots| == STAT_SLOTS && o < |stats| && !PointsBelow(stats, id, o)
    ensures exists i :: 0 <= i < |now| && !Kept(now, slots, i)
  {
    var k := -(ClosedLen(stats, o) as int);
    var i := o - 1;
    assert KeyBefore(i, id) == o && k <= i;
    OwnersStayOwners(stats, id, now, i);
    assert Measured(stats[o]) && SameProgram(now[i], Closed(stats)[o]);
    if k < i && Kept(now, slots, k) {
      assert SameProgram(now[k], Closed(stats)[k + 1]);
      assert stats[k + 1].Data != stats[o].Data;
    }
    assert !Kept(now, slots, i) || !Kept(now, slots, k);
  }

  /** Close, remove, close, open: every survivor has its program back if and only if no
      reference the first close stored points at the removed stat or above it. */
  lemma RemovalKeepsPrograms(stats: seq<TStat>, id: int, now: seq<TStat>, slots: seq<TStat>)
    requires AllMeasured(stats) && NoReferences(stats) && NoStaleTwin(stats) && RemovedAfterClose(stats, id, now)
    requires |slots| == STAT_SLOTS
    ensures (forall i :: 0 <= i < |now| ==> Kept(now, slots, i)) <==>
            (forall o :: 0 <= o < |stats| ==> PointsBelow(stats, id, o))
  {
    hide Kept, PointsBelow;
    if forall o :: 0 <= o < |stats| ==> PointsBelow(stats, id, o) {
      forall i | 0 <= i < |now|
        ensures Kept(now, slots, i)
      {
        PointedBelowKept(stats, id, now, slots, i);
      }
    } else {
      var o :| 0 <= o < |stats| && !PointsBelow(stats, id, o);
      PointedAboveLost(stats, id, now, slots, o);
    }
  }

  /** RemoveStat on a closed board leaves such a table. */
  lemma RemoveStatAfterClose(b: BoardState, stats: seq<TStat>, id: int)
    requires Valid(b) && 0 <= id <= b.count && |stats| == b.count + 1 && b.stats[..b.count + 1] == Closed(stats)
    ensures RemovedAfterClose(stats, id, RemoveStat(b, id).stats[..b.count])
  {
    hide RemoveStat, ClosedLen;
    var now := RemoveStat(b, id).stats[..b.count];
    forall i | 0 <= i < |now|
      ensures SameProgram(now[i], Closed(stats)[KeyBefore(i, id)])
    {
      SurvivorSlot(b, id, KeyBefore(i, id));
      assert b.stats[..b.count + 1][KeyBefore(i, id)] == Closed(stats)[KeyBefore(i, id)];
    }
  }
}
