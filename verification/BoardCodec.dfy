/** The board file format as values (engine/game.go, BoardClose and BoardOpen):
    what closing writes, what opening reads, and when the two are inverse. */
module BoardCodec {
  import opened GameVars
  import opened Serialize

  const CELLS := BOARD_WIDTH * BOARD_HEIGHT

  /** A board: its cells row by row, and its live stats. */
  datatype Board = Board(name: string, cells: seq<TTile>, info: TBoardInfo, stats: seq<TStat>)

  // ---- Run lengths -------------------------------------------------------

  /** The runs written from cell n on, when `count` cells of `tile` are pending. */
  function RunsFrom(cells: seq<TTile>, n: nat, count: Byte, tile: TTile): (r: seq<TRleTile>)
    requires n <= |cells|
    ensures |r| >= 1
    decreases |cells| - n
  {
    if n == |cells| then [TRleTile(count, tile)]
    else if cells[n] == tile && count < 255 then RunsFrom(cells, n + 1, count + 1, tile)
    else [TRleTile(count, tile)] + RunsFrom(cells, n + 1, 1, cells[n])
  }

  function Runs(cells: seq<TTile>): seq<TRleTile>
    requires |cells| > 0
  {
    RunsFrom(cells, 1, 1, cells[0])
  }

  function Repeat(tile: TTile, n: nat): (r: seq<TTile>)
    ensures |r| == n
  {
    seq(n, _ => tile)
  }

  function Expand(runs: seq<TRleTile>): seq<TTile> {
    if runs == [] then [] else Repeat(runs[0].Tile, runs[0].Count) + Expand(runs[1..])
  }

  /** Every run is 1 to 255 cells long, and is followed by another tile unless it is full. */
  predicate Tight(runs: seq<TRleTile>) {
    && (forall i :: 0 <= i < |runs| ==> runs[i].Count >= 1)
    && (forall i :: 0 <= i < |runs| - 1 ==> runs[i].Tile != runs[i + 1].Tile || runs[i].Count == 255)
  }

  lemma {:induction false} RunsFromExpand(cells: seq<TTile>, n: nat, count: Byte, tile: TTile)
    requires n <= |cells| && count >= 1
    ensures var r := RunsFrom(cells, n, count, tile);
      Expand(r) == Repeat(tile, count) + cells[n..] && Tight(r) && r[0].Tile == tile
    decreases |cells| - n
  {
    var r := RunsFrom(cells, n, count, tile);
    if n == |cells| {
      assert r[1..] == [];
    } else if cells[n] == tile && count < 255 {
      RunsFromExpand(cells, n + 1, count + 1, tile);
      assert Repeat(tile, count + 1) + cells[n + 1..] == Repeat(tile, count) + cells[n..];
    } else {
      RunsFromExpand(cells, n + 1, 1, cells[n]);
      assert r[1..] == RunsFrom(cells, n + 1, 1, cells[n]);
      assert Repeat(cells[n], 1) + cells[n + 1..] == cells[n..];
    }
  }

  /** The runs of a board cover exactly its cells, none longer than 255, none splittable. */
  lemma RunsCoverTheCells(cells: seq<TTile>)
    requires |cells| > 0
    ensures Expand(Runs(cells)) == cells && Tight(Runs(cells))
  {
    RunsFromExpand(cells, 1, 1, cells[0]);
    assert Repeat(cells[0], 1) + cells[1..] == cells;
  }

  function EncRuns(runs: seq<TRleTile>): (r: seq<Byte>)
    ensures |r| == SizeOfRleTile * |runs|
  {
    if runs == [] then [] else EncRleTile(runs[0]) + EncRuns(runs[1..])
  }

  /** Reads cells n.. from position p on, with `rle.Count` cells of the last run
      left. The counter is a byte: a run stored with count 0 stands for 256 cells. */
  function OpenTiles(d: seq<Byte>, p: nat, rle: TRleTile, n: nat): (r: Option<(seq<TTile>, nat)>)
    requires n <= CELLS
    ensures r.Some? ==> |r.value.0| == CELLS - n
    decreases CELLS - n
  {
    if n == CELLS then Some(([], p))
    else
      var more := rle.Count <= 0;
      if more && p + SizeOfRleTile > |d| then None
      else
        var now := if more then LoadRleTile(d[p..p + SizeOfRleTile]) else rle;
        var at := if more then p + SizeOfRleTile else p;
        match OpenTiles(d, at, now.(Count := (now.Count + 255) % 256), n + 1)
        case None => None
        case Some((rest, q)) => Some(([now.Tile] + rest, q))
  }

  lemma NoCells(runs: seq<TRleTile>)
    requires forall i :: 0 <= i < |runs| ==> runs[i].Count >= 1
    ensures Expand(runs) == [] <==> runs == []
  {
  }

  lemma OpenTilesLoads(d: seq<Byte>, p: nat, rle: TRleTile, n: nat, now: TRleTile)
    requires n < CELLS && p + SizeOfRleTile <= |d| && d[p..p + SizeOfRleTile] == EncRleTile(now)
    requires rle.Count == 0 && now.Count >= 1
    ensures OpenTiles(d, p, rle, n) ==
      match OpenTiles(d, p + SizeOfRleTile, now.(Count := now.Count - 1), n + 1)
      case None => None
      case Some((rest, q)) => Some(([now.Tile] + rest, q))
  {
  }

  /** Two stretches of bytes, one after the other. */
  lemma SliceParts(d: seq<Byte>, p: nat, a: seq<Byte>, b: seq<Byte>)
    requires p + |a| + |b| <= |d| && d[p..p + |a| + |b|] == a + b
    ensures d[p..p + |a|] == a && d[p + |a|..p + |a| + |b|] == b
  {
    var ab := d[p..p + |a| + |b|];
    assert d[p..p + |a|] == ab[..|a|];
    assert d[p + |a|..p + |a| + |b|] == ab[|a|..];
  }

  lemma RunsSplit(d: seq<Byte>, p: nat, runs: seq<TRleTile>)
    requires runs != [] && p + SizeOfRleTile * |runs| <= |d| && d[p..p + SizeOfRleTile * |runs|] == EncRuns(runs)
    ensures d[p..p + 3] == EncRleTile(runs[0])
    ensures d[p + 3..p + 3 + SizeOfRleTile * |runs[1..]|] == EncRuns(runs[1..])
  {
    SliceParts(d, p, EncRleTile(runs[0]), EncRuns(runs[1..]));
  }

  lemma OneMore(tile: TTile, n: nat, rest: seq<TTile>)
    requires n > 0
    ensures [tile] + (Repeat(tile, n - 1) + rest) == Repeat(tile, n) + rest
  {
  }

  lemma {:induction false} OpenTilesReads(d: seq<Byte>, p: nat, rle: TRleTile, n: nat, runs: seq<TRleTile>)
    requires n <= CELLS && p + SizeOfRleTile * |runs| <= |d| && d[p..p + SizeOfRleTile * |runs|] == EncRuns(runs)
    requires forall i :: 0 <= i < |runs| ==> runs[i].Count >= 1
    requires rle.Count + |Expand(runs)| == CELLS - n
    ensures OpenTiles(d, p, rle, n) == Some((Repeat(rle.Tile, rle.Count) + Expand(runs), p + SizeOfRleTile * |runs|))
    decreases CELLS - n
  {
    NoCells(runs);
    if n == CELLS {
      assert Repeat(rle.Tile, rle.Count) + Expand(runs) == [];
    } else if rle.Count > 0 {
      var left := rle.(Count := rle.Count - 1);
      OpenTilesReads(d, p, left, n + 1, runs);
      OneMore(rle.Tile, rle.Count, Expand(runs));
    } else {
      hide OpenTiles;
      var now, rest := runs[0], runs[1..];
      var left := now.(Count := now.Count - 1);
      RunsSplit(d, p, runs);
      OpenTilesLoads(d, p, rle, n, now);
      hide EncRuns, EncRleTile;
      OpenTilesReads(d, p + 3, left, n + 1, rest);
      OneMore(now.Tile, now.Count, Expand(rest));
      assert Repeat(rle.Tile, 0) + Expand(runs) == Expand(runs);
    }
  }

  // ---- Stats and shared programs -----------------------------------------

  /** The last of stats 1..n-1 with the same program as stat i, 0 when there is none. */
  function LastTwin(stats: seq<TStat>, i: nat, n: nat): (k: nat)
    requires i < |stats| && n <= i
    ensures k == 0 || (1 <= k < n && stats[k].Data == stats[i].Data)
    ensures forall j :: k < j < n && 1 <= j ==> stats[j].Data != stats[i].Data
  {
    if n <= 1 then 0 else if stats[n - 1].Data == stats[i].Data then n - 1 else LastTwin(stats, i, n - 1)
  }

  /** The length closing stores: minus the number of a stat that has the same program already. */
  function ClosedLen(stats: seq<TStat>, i: nat): Int16
    requires i < |stats| <= STAT_SLOTS
  {
    if stats[i].DataLen <= 0 then stats[i].DataLen
    else var k: int := LastTwin(stats, i, i); if k > 0 then -k else stats[i].DataLen
  }

  function Closed(stats: seq<TStat>): (r: seq<TStat>)
    requires |stats| <= STAT_SLOTS
    ensures |r| == |stats|
  {
    seq(|stats|, i requires 0 <= i < |stats| => stats[i].(DataLen := ClosedLen(stats, i)))
  }

  /** A live program is as long as its length says, or its length is the negative
      number of a stat, as an earlier close left it. A stat of length 0 has no live
      program, but its Data may still hold what an earlier board left in the slot. */
  ghost predicate Measured(s: TStat) {
    && ByteString(s.Data)
    && (s.DataLen >= 0 ==> s.DataLen == 0 || s.DataLen == |s.Data|)
    && (s.DataLen < 0 ==> -(s.DataLen as int) < STAT_SLOTS && s.Data != "")
  }

  /** As opening leaves them: no length is a reference. */
  predicate NoReferences(stats: seq<TStat>) {
    forall i :: 0 <= i < |stats| ==> stats[i].DataLen >= 0
  }

  ghost predicate AllMeasured(stats: seq<TStat>) {
    |stats| <= STAT_SLOTS && forall i :: 0 <= i < |stats| ==> Measured(stats[i])
  }

  function EncStatAndProgram(stats: seq<TStat>, i: nat): seq<Byte>
    requires i < |stats| <= STAT_SLOTS
  {
    EncStat(stats[i].(DataLen := ClosedLen(stats, i))) + if ClosedLen(stats, i) > 0 then Bytes(stats[i].Data) else []
  }

  /** Stats i.. as written. */
  function EncStatsFrom(stats: seq<TStat>, i: nat): seq<Byte>
    requires i <= |stats| <= STAT_SLOTS
    decreases |stats| - i
  {
    if i == |stats| then [] else EncStatAndProgram(stats, i) + EncStatsFrom(stats, i + 1)
  }

  datatype Opened = Opened(slots: seq<TStat>, p: nat)

  /** Reads stats i..count into the slots, resolving references to earlier programs. */
  function OpenStats(d: seq<Byte>, p: nat, slots: seq<TStat>, i: nat, count: int): (r: Option<Opened>)
    ensures r.Some? ==> |r.value.slots| == |slots|
    decreases count - i
  {
    if i > count then Some(Opened(slots, p))
    else if i >= |slots| || p + SizeOfStat > |d| then None
    else
      var s := LoadStat(d[p..p + SizeOfStat], slots[i]);
      var q := p + SizeOfStat;
      if s.DataLen > 0 then
        if q + s.DataLen > |d| then None
        else OpenStats(d, q + s.DataLen, slots[i := s.(Data := Chars(d[q..q + s.DataLen]))], i + 1, count)
      else if s.DataLen < 0 then
        var k := -(s.DataLen as int);
        if k >= |slots| then None
        else
          var t := slots[i := s][k];
          OpenStats(d, q, slots[i := s.(Data := t.Data, DataLen := t.DataLen)], i + 1, count)
      else OpenStats(d, q, slots[i := s], i + 1, count)
  }

  /** What opening makes of stat i, given what the slots held before: a reference is
      followed as far as the stats have been read, and no further. */
  function Restored(stats: seq<TStat>, slots: seq<TStat>, i: nat): TStat
    requires i < |stats| <= STAT_SLOTS == |slots|
    decreases i
  {
    var len := ClosedLen(stats, i);
    var k := -(len as int);
    if len > 0 then stats[i]
    else if len == 0 || k == i || k >= STAT_SLOTS then stats[i].(Data := slots[i].Data)
    else
      var t := if k < i then Restored(stats, slots, k) else slots[k];
      stats[i].(Data := t.Data, DataLen := t.DataLen)
  }

  /** The slots when stats 0..i-1 have been read. */
  ghost predicate ReadUpTo(stats: seq<TStat>, slots: seq<TStat>, now: seq<TStat>, i: nat) {
    && |stats| <= STAT_SLOTS == |slots| == |now| && i <= |stats|
    && (forall k :: 0 <= k < i ==> now[k] == Restored(stats, slots, k))
    && (forall k :: i <= k < |slots| ==> now[k] == slots[k])
  }

  lemma {:induction false} OpenStatsReads(d: seq<Byte>, p: nat, stats: seq<TStat>, slots: seq<TStat>, now: seq<TStat>,
          i: nat)
    requires AllMeasured(stats) && ReadUpTo(stats, slots, now, i)
    requires p + |EncStatsFrom(stats, i)| <= |d| && d[p..p + |EncStatsFrom(stats, i)|] == EncStatsFrom(stats, i)
    ensures var r := OpenStats(d, p, now, i, |stats| - 1);
      r.Some? && ReadUpTo(stats, slots, r.value.slots, |stats|)
    decreases |stats| - i
  {
    hide OpenStats, EncStatAndProgram, Restored, ClosedLen, Measured;
    if i == |stats| {
      OpenStatsDone(d, p, now, i, |stats| - 1);
    } else {
      var e := EncStatsFrom(stats, i);
      var size := |EncStatAndProgram(stats, i)|;
      assert d[p..p + size] == d[p..p + |e|][..size] == EncStatAndProgram(stats, i);
      assert d[p + size..p + |e|] == d[p..p + |e|][size..] == EncStatsFrom(stats, i + 1);
      OpenOneStat(d, p, stats, slots, now, i);
      OpenStatsReads(d, p + size, stats, slots, now[i := Restored(stats, slots, i)], i + 1);
    }
  }

  lemma OpenStatsDone(d: seq<Byte>, p: nat, now: seq<TStat>, i: nat, count: int)
    requires i > count
    ensures OpenStats(d, p, now, i, count) == Some(Opened(now, p))
  {
  }

  /** What one turn of the reading loop makes of stat i, given the stats read before. */
  lemma RestoredFromRead(stats: seq<TStat>, slots: seq<TStat>, now: seq<TStat>, i: nat, s: TStat)
    requires AllMeasured(stats) && ReadUpTo(stats, slots, now, i) && i < |stats|
    requires s == stats[i].(DataLen := ClosedLen(stats, i), Data := now[i].Data)
    ensures var k := -(s.DataLen as int);
      && k < |now|
      && Restored(stats, slots, i) ==
         if s.DataLen > 0 then s.(Data := stats[i].Data)
         else if s.DataLen < 0 then s.(Data := now[i := s][k].Data, DataLen := now[i := s][k].DataLen)
         else s
  {
    assert Measured(stats[i]) && now[i] == slots[i];
    var k := -(s.DataLen as int);
    assert 0 < k < i ==> now[k] == Restored(stats, slots, k);
    hide LastTwin;
  }

  lemma StatAsWritten(stats: seq<TStat>, i: nat)
    requires AllMeasured(stats) && i < |stats|
    ensures var len := ClosedLen(stats, i);
      && ByteString(stats[i].Data) && (len > 0 ==> len == |stats[i].Data|)
      && |EncStatAndProgram(stats, i)| == SizeOfStat + if len > 0 then |stats[i].Data| else 0
  {
    assert Measured(stats[i]);
    hide EncStat;
  }

  lemma OpenOneStat(d: seq<Byte>, p: nat, stats: seq<TStat>, slots: seq<TStat>, now: seq<TStat>, i: nat)
    requires AllMeasured(stats) && ReadUpTo(stats, slots, now, i) && i < |stats|
    requires p + |EncStatAndProgram(stats, i)| <= |d|
      && d[p..p + |EncStatAndProgram(stats, i)|] == EncStatAndProgram(stats, i)
    ensures OpenStats(d, p, now, i, |stats| - 1)
      == OpenStats(d, p + |EncStatAndProgram(stats, i)|, now[i := Restored(stats, slots, i)], i + 1, |stats| - 1)
  {
    var len := ClosedLen(stats, i);
    var s := stats[i].(DataLen := len);
    SliceParts(d, p, EncStat(s), if len > 0 then Bytes(s.Data) else []);
    StatAsWritten(stats, i);
    RestoredFromRead(stats, slots, now, i, s.(Data := now[i].Data));
    hide EncStat, LoadStat, OpenStats, Measured, AllMeasured, EncStatAndProgram, Bytes, Restored, ClosedLen;
    StatRoundTrip(s, now[i]);
    OpenStatLoads(d, p, now, i, |stats| - 1);
    if len > 0 {
      CharsOfBytes(s.Data);
    }
  }

  /** One turn of the loop over the stats. */
  lemma OpenStatLoads(d: seq<Byte>, p: nat, slots: seq<TStat>, i: nat, count: int)
    requires i <= count && i < |slots| && p + SizeOfStat <= |d|
    ensures var s := LoadStat(d[p..p + SizeOfStat], slots[i]); var q := p + SizeOfStat;
      OpenStats(d, p, slots, i, count) ==
        if s.DataLen > 0 then
          if q + s.DataLen > |d| then None
          else OpenStats(d, q + s.DataLen, slots[i := s.(Data := Chars(d[q..q + s.DataLen]))], i + 1, count)
        else if s.DataLen < 0 then
          var k := -(s.DataLen as int);
          if k >= |slots| then None
          else OpenStats(d, q, slots[i := s.(Data := slots[i := s][k].Data, DataLen := slots[i := s][k].DataLen)],
              i + 1, count)
        else OpenStats(d, q, slots[i := s], i + 1, count)
  {
    hide LoadStat, Chars;
  }

  // ---- Whole boards ------------------------------------------------------

  ghost predicate WellFormed(b: Board) {
    && ByteString(b.name) && |b.name| < SizeOfBoardName
    && |b.cells| == CELLS && |b.info.NeighborBoards| == 4
    && ByteString(b.info.Message) && |b.info.Message| < SizeOfBoardInfoMessage
    && |b.stats| >= 1 && AllMeasured(b.stats)
  }

  function EncBoard(b: Board): seq<Byte>
    requires |b.cells| == CELLS && |b.info.NeighborBoards| == 4 && 1 <= |b.stats| <= STAT_SLOTS
  {
    EncString(b.name, SizeOfBoardName) + EncRuns(Runs(b.cells)) + EncBoardInfo(b.info)
      + [Lo(|b.stats| - 1), Hi(|b.stats| - 1)] + EncStatsFrom(b.stats, 0)
  }

  datatype OpenedBoard = OpenedBoard(name: string, cells: seq<TTile>, info: TBoardInfo, count: Int16, slots: seq<TStat>)

  /** What BoardOpen reads from the bytes, over whatever the stat slots held; None where Go panics. */
  function OpenBoard(d: seq<Byte>, slots: seq<TStat>): Option<OpenedBoard> {
    if SizeOfBoardName > |d| then None
    else
      match OpenTiles(d, SizeOfBoardName, TRleTile(0, TTile(0, 0)), 0)
      case None => None
      case Some((cells, p)) => OpenAfterTiles(d, cells, p, slots)
  }

  function OpenAfterTiles(d: seq<Byte>, cells: seq<TTile>, p: nat, slots: seq<TStat>): Option<OpenedBoard>
    requires |d| >= SizeOfBoardName
  {
    var q := p + SizeOfBoardInfo;
    if q + 2 > |d| then None
    else
      var count := LoadInt16(d[q], d[q + 1]);
      match OpenStats(d, q + 2, slots, 0, count)
      case None => None
      case Some(o) => Some(OpenedBoard(LoadString(d[..SizeOfBoardName]), cells, LoadBoardInfo(d[p..q]), count, o.slots))
  }

  /** What comes back: everything but the programs as closed, and the programs as `Restored` says. */
  lemma OpenBoardReads(b: Board, slots: seq<TStat>)
    requires WellFormed(b) && |slots| == STAT_SLOTS
    ensures var r := OpenBoard(EncBoard(b), slots);
      && r.Some? && r.value.name == b.name && r.value.cells == b.cells && r.value.info == b.info
      && r.value.count == |b.stats| - 1 && ReadUpTo(b.stats, slots, r.value.slots, |b.stats|)
  {
    var d, runs := EncBoard(b), Runs(b.cells);
    var p := SizeOfBoardName + SizeOfRleTile * |runs|;
    var q := p + SizeOfBoardInfo;
    BoardLayout(b, d, p, q);
    hide EncBoard, OpenAfterTiles;
    OpenTilesOfBoard(b, d, p);
    OpenAfterTilesReads(b, d, p, q, slots);
  }

  lemma OpenAfterTilesReads(b: Board, d: seq<Byte>, p: nat, q: nat, slots: seq<TStat>)
    requires WellFormed(b) && |slots| == STAT_SLOTS && SizeOfBoardName <= p && q == p + SizeOfBoardInfo
    requires |d| == q + 2 + |EncStatsFrom(b.stats, 0)| && d[..SizeOfBoardName] == EncString(b.name, SizeOfBoardName)
    requires d[p..q] == EncBoardInfo(b.info) && d[q] == Lo(|b.stats| - 1) && d[q + 1] == Hi(|b.stats| - 1)
    requires d[q + 2..] == EncStatsFrom(b.stats, 0)
    ensures var r := OpenAfterTiles(d, b.cells, p, slots);
      && r.Some? && r.value.name == b.name && r.value.cells == b.cells && r.value.info == b.info
      && r.value.count == |b.stats| - 1 && ReadUpTo(b.stats, slots, r.value.slots, |b.stats|)
  {
    hide EncString, EncBoardInfo, EncStatsFrom, LoadString, LoadBoardInfo, LoadInt16, OpenStats, ReadUpTo, Lo, Hi;
    StringRoundTrip(b.name, SizeOfBoardName);
    BoardInfoRoundTrip(b.info);
    Int16RoundTrip(|b.stats| - 1);
    NothingRead(b.stats, slots);
    OpenStatsReads(d, q + 2, b.stats, slots, slots, 0);
  }

  lemma NothingRead(stats: seq<TStat>, slots: seq<TStat>)
    requires |stats| <= STAT_SLOTS == |slots|
    ensures ReadUpTo(stats, slots, slots, 0)
  {
  }

  lemma OpenTilesOfBoard(b: Board, d: seq<Byte>, p: nat)
    requires |b.cells| == CELLS && p == SizeOfBoardName + SizeOfRleTile * |Runs(b.cells)| <= |d|
    requires d[SizeOfBoardName..p] == EncRuns(Runs(b.cells))
    ensures OpenTiles(d, SizeOfBoardName, TRleTile(0, TTile(0, 0)), 0) == Some((b.cells, p))
  {
    hide OpenTiles, Runs;
    RunsCoverTheCells(b.cells);
    OpenTilesReads(d, SizeOfBoardName, TRleTile(0, TTile(0, 0)), 0, Runs(b.cells));
    assert Repeat(TTile(0, 0), 0) + Expand(Runs(b.cells)) == b.cells;
  }

  /** Where the parts of a stored board lie. */
  lemma BoardLayout(b: Board, d: seq<Byte>, p: nat, q: nat)
    requires WellFormed(b) && d == EncBoard(b)
    requires p == SizeOfBoardName + SizeOfRleTile * |Runs(b.cells)| && q == p + SizeOfBoardInfo
    ensures |d| == q + 2 + |EncStatsFrom(b.stats, 0)|
    ensures d[..SizeOfBoardName] == EncString(b.name, SizeOfBoardName)
      && d[SizeOfBoardName..p] == EncRuns(Runs(b.cells))
    ensures d[p..q] == EncBoardInfo(b.info) && d[q] == Lo(|b.stats| - 1) && d[q + 1] == Hi(|b.stats| - 1)
    ensures d[q + 2..] == EncStatsFrom(b.stats, 0)
  {
    hide EncString, EncBoardInfo, EncStatsFrom, Runs, Lo, Hi;
  }

  /** A stat without a live program must find its own Data in the slot. */
  ghost predicate SlotsAgree(stats: seq<TStat>, slots: seq<TStat>)
    requires |stats| <= |slots|
  {
    forall i :: 0 <= i < |stats| && stats[i].DataLen == 0 ==> slots[i].Data == stats[i].Data
  }

  /** No dead stat still holds the program of a later live one. */
  predicate NoStaleTwin(stats: seq<TStat>) {
    forall k, i :: 1 <= k < i < |stats| && stats[k].DataLen == 0 && stats[i].DataLen > 0 ==>
        stats[k].Data != stats[i].Data
  }

  lemma {:induction false} LiveTwinsRestored(stats: seq<TStat>, slots: seq<TStat>, i: nat)
    requires AllMeasured(stats) && NoReferences(stats) && i < |stats| <= STAT_SLOTS == |slots|
    requires NoStaleTwin(stats) && SlotsAgree(stats, slots)
    ensures Restored(stats, slots, i) == stats[i]
    decreases i
  {
    assert Measured(stats[i]);
    if stats[i].DataLen > 0 && LastTwin(stats, i, i) > 0 {
      var k := LastTwin(stats, i, i);
      LiveTwinsRestored(stats, slots, k);
      assert Measured(stats[k]);
    }
  }

  /** A stale twin anywhere below kills the program: references lead down to it. */
  lemma {:induction false} StaleTwinKills(stats: seq<TStat>, slots: seq<TStat>, k: nat, i: nat)
    requires AllMeasured(stats) && NoReferences(stats) && 1 <= k < i < |stats| <= STAT_SLOTS == |slots|
    requires stats[k].DataLen == 0 && stats[i].DataLen > 0 && stats[k].Data == stats[i].Data
    ensures Restored(stats, slots, i).DataLen == 0
    decreases i
  {
    var j := LastTwin(stats, i, i);
    assert Measured(stats[j]);
    if j > k && stats[j].DataLen > 0 {
      StaleTwinKills(stats, slots, k, j);
    }
  }

  /** Closing a board and opening it again restores it exactly when no dead stat
      holds a later program, and every dead stat's slot still has its Data. */
  lemma BoardRoundTrip(b: Board, slots: seq<TStat>)
    requires WellFormed(b) && NoReferences(b.stats) && |slots| == STAT_SLOTS
    ensures var r := OpenBoard(EncBoard(b), slots);
      && r.Some?
      && (r.value.name == b.name && r.value.cells == b.cells && r.value.info == b.info
            && r.value.count == |b.stats| - 1)
      && (r.value.slots[..|b.stats|] == b.stats <==> NoStaleTwin(b.stats) && SlotsAgree(b.stats, slots))
  {
    OpenBoardReads(b, slots);
    var now := OpenBoard(EncBoard(b), slots).value.slots;
    hide OpenBoard, EncBoard;
    if NoStaleTwin(b.stats) && SlotsAgree(b.stats, slots) {
      forall i | 0 <= i < |b.stats|
        ensures now[i] == b.stats[i]
      {
        LiveTwinsRestored(b.stats, slots, i);
      }
    }
    if now[..|b.stats|] == b.stats {
      forall i | 0 <= i < |b.stats| && b.stats[i].DataLen == 0
        ensures slots[i].Data == b.stats[i].Data
      {
        assert now[..|b.stats|][i] == Restored(b.stats, slots, i);
      }
      forall k, i | 1 <= k < i < |b.stats| && b.stats[k].DataLen == 0 && b.stats[i].DataLen > 0
        ensures b.stats[k].Data != b.stats[i].Data
      {
        assert now[..|b.stats|][i] == Restored(b.stats, slots, i);
        if b.stats[k].Data == b.stats[i].Data {
          StaleTwinKills(b.stats, slots, k, i);
        }
      }
    }
  }

  /** A board whose dead stats are clean always comes back, whatever slots of clean stats it is opened over. */
  lemma CleanBoardRoundTrip(b: Board, slots: seq<TStat>)
    requires WellFormed(b) && NoReferences(b.stats) && |slots| == STAT_SLOTS
    requires forall i :: 0 <= i < |b.stats| && b.stats[i].DataLen == 0 ==> b.stats[i].Data == "" && slots[i].Data == ""
    ensures var r := OpenBoard(EncBoard(b), slots);
      r.Some? && Board(r.value.name, r.value.cells, r.value.info, r.value.slots[..|b.stats|]) == b
  {
    BoardRoundTrip(b, slots);
    assert forall i :: 0 <= i < |b.stats| ==> Measured(b.stats[i]);
  }

  /** The program BoardClose and BoardOpen lose: stat 2's, to stat 1's left-over text. */
  lemma StaleTwinExample(s: TStat, text: string)
    requires ByteString(text) && 0 < |text| < 100
    ensures var stats := [s.(Data := "", DataLen := 0), s.(Data := text, DataLen := 0),
      s.(Data := text, DataLen := |text|)];
      AllMeasured(stats) && !NoStaleTwin(stats) && forall slots :: |slots| == STAT_SLOTS ==>
          Restored(stats, slots, 2).DataLen == 0
  {
    var stats := [s.(Data := "", DataLen := 0), s.(Data := text, DataLen := 0), s.(Data := text, DataLen := |text|)];
    assert Measured(stats[0]) && Measured(stats[1]) && Measured(stats[2]);
    assert 1 <= 1 < 2 < |stats| && stats[1].Data == stats[2].Data;
    forall slots: seq<TStat> | |slots| == STAT_SLOTS
      ensures Restored(stats, slots, 2).DataLen == 0
    {
      StaleTwinKills(stats, slots, 1, 2);
    }
  }

  // ---- Closing twice -----------------------------------------------------

  lemma {:induction false} ClosedStatsEncodeTheSame(stats: seq<TStat>, i: nat)
    requires i <= |stats| <= STAT_SLOTS
    ensures EncStatsFrom(Closed(stats), i) == EncStatsFrom(stats, i)
    decreases |stats| - i
  {
    if i < |stats| {
      ClosedStatsEncodeTheSame(stats, i + 1);
      TwinsOfClosed(stats, i, i);
      assert ClosedLen(Closed(stats), i) == ClosedLen(stats, i);
    }
  }

  lemma {:induction false} TwinsOfClosed(stats: seq<TStat>, i: nat, n: nat)
    requires n <= i < |stats| <= STAT_SLOTS
    ensures LastTwin(Closed(stats), i, n) == LastTwin(stats, i, n)
  {
    if n > 1 {
      TwinsOfClosed(stats, i, n - 1);
    }
  }

  /** Closing rewrites the lengths of shared programs, yet a second close writes the same bytes. */
  lemma ClosingTwiceWritesTheSame(b: Board)
    requires |b.cells| == CELLS && |b.info.NeighborBoards| == 4 && 1 <= |b.stats| <= STAT_SLOTS
    ensures EncBoard(b.(stats := Closed(b.stats))) == EncBoard(b)
  {
    ClosedStatsEncodeTheSame(b.stats, 0);
  }

  // ---- One turn of the reading loops -------------------------------------

  /** What the tile loop still has to do, as seen from cell n. */
  lemma OpenTilesStep(d: seq<Byte>, p: nat, rle: TRleTile, n: nat)
    requires n < CELLS && OpenTiles(d, p, rle, n).Some?
    ensures var more := rle.Count <= 0;
      && (more ==> p + SizeOfRleTile <= |d|)
      && var now := if more then LoadRleTile(d[p..p + SizeOfRleTile]) else rle;
        var at := if more then p + SizeOfRleTile else p;
        var next := OpenTiles(d, at, now.(Count := (now.Count + 255) % 256), n + 1);
        next.Some? && OpenTiles(d, p, rle, n).value == ([now.Tile] + next.value.0, next.value.1)
  {
  }

  lemma NoCellsLeft(d: seq<Byte>, p: nat, rle: TRleTile)
    ensures OpenTiles(d, p, rle, CELLS) == Some(([], p))
  {
  }

  /** What one turn of the loop over the stats does. */
  lemma OpenStatsStep(d: seq<Byte>, p: nat, slots: seq<TStat>, i: nat, count: int)
    requires i <= count && OpenStats(d, p, slots, i, count).Some?
    ensures i < |slots| && p + SizeOfStat <= |d|
    ensures var s := LoadStat(d[p..p + SizeOfStat], slots[i]);
      && (s.DataLen > 0 ==> p + SizeOfStat + s.DataLen <= |d|)
      && (s.DataLen < 0 ==> -(s.DataLen as int) < |slots|)
      && OpenStats(d, p, slots, i, count) == (
        var q, k := p + SizeOfStat, -(s.DataLen as int);
        if s.DataLen > 0 then
          OpenStats(d, q + s.DataLen, slots[i := s.(Data := Chars(d[q..q + s.DataLen]))], i + 1, count)
        else if s.DataLen < 0 then
          var t := slots[i := s][k];
          OpenStats(d, q, slots[i := s.(Data := t.Data, DataLen := t.DataLen)], i + 1, count)
        else OpenStats(d, q, slots[i := s], i + 1, count))
  {
  }

  // ---- Growing a written board -------------------------------------------

  lemma {:induction false} EncRunsAppend(runs: seq<TRleTile>, rle: TRleTile)
    ensures EncRuns(runs + [rle]) == EncRuns(runs) + EncRleTile(rle)
  {
    if runs != [] {
      EncRunsAppend(runs[1..], rle);
      assert (runs + [rle])[1..] == runs[1..] + [rle];
    } else {
      assert (runs + [rle])[1..] == [];
    }
  }
}
