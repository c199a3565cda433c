/** BoardClose and BoardOpen in place (engine/game.go), proved to write and read
    what `BoardCodec` says. */
module BoardFile {
  import opened GameVars
  import opened Serialize
  import opened BoardCodec
  import FileLayout
  import opened SharedPrograms
  import opened Game

  ghost function CellsOf(tiles: array2<TTile>): (r: seq<TTile>)
    requires tiles.Length0 == GRID_W && tiles.Length1 == GRID_H
    reads tiles
    ensures |r| == CELLS
  {
    seq(CELLS, n requires 0 <= n < CELLS reads tiles => tiles[n % BOARD_WIDTH + 1, n / BOARD_WIDTH + 1])
  }

  ghost function BoardOf(e: Engine): Board
    requires e.Shaped()
    reads e, e.Tiles, e.Stats
  {
    Board(e.BoardName, CellsOf(e.Tiles), e.Info, e.Stats[..e.StatCount + 1])
  }

  /** Every live program is as long as its length says, or refers to another. */
  ghost predicate Storable(stats: seq<TStat>) {
    1 <= |stats| <= STAT_SLOTS && forall i :: 0 <= i < |stats| ==>
        stats[i].DataLen <= 0 || stats[i].DataLen == |stats[i].Data|
  }

  /** Cells are numbered row by row. */
  lemma CellAt(e: Engine, ix: int, iy: int)
    requires e.Sized() && OnBoard(ix, iy)
    ensures CellsOf(e.Tiles)[(iy - 1) * BOARD_WIDTH + ix - 1] == e.Tiles[ix, iy]
  {
    var n := (iy - 1) * BOARD_WIDTH + (ix - 1);
    assert n % BOARD_WIDTH == ix - 1 && n / BOARD_WIDTH == iy - 1;
  }

  lemma RunsFromStep(cells: seq<TTile>, n: nat, rle: TRleTile, done: seq<TRleTile>)
    requires n <= |cells|
    ensures n == |cells| ==> done + RunsFrom(cells, n, rle.Count, rle.Tile) == done + [rle]
    ensures n < |cells| && cells[n] == rle.Tile && rle.Count < 255 ==>
      done + RunsFrom(cells, n, rle.Count, rle.Tile) == done + RunsFrom(cells, n + 1, rle.Count + 1, rle.Tile)
    ensures n < |cells| && !(cells[n] == rle.Tile && rle.Count < 255) ==>
      done + RunsFrom(cells, n, rle.Count, rle.Tile) == (done + [rle]) + RunsFrom(cells, n + 1, 1, cells[n])
  {
  }

  /** One more run behind those written. */
  method WriteRun(e: Engine, p: nat, rle: TRleTile, ghost start: nat, ghost buf: seq<Byte>, ghost done: seq<TRleTile>)
    requires p == start + |EncRuns(done)| && p + SizeOfRleTile <= e.IoTmpBuf.Length == |buf|
    requires e.IoTmpBuf[..] == Written(buf, start, EncRuns(done))
    modifies e.IoTmpBuf
    ensures e.IoTmpBuf[..] == Written(buf, start, EncRuns(done + [rle]))
  {
    hide EncRuns, Written;
    StoreRleTile(e.IoTmpBuf, p, rle);
    WrittenTwice(buf, start, EncRuns(done), EncRleTile(rle));
    EncRunsAppend(done, rle);
  }

  method WriteTiles(e: Engine, start: nat) returns (p: nat)
    requires e.Sized() && e.IoTmpBuf.Length == IO_TMP_BUF
    requires start + |EncRuns(Runs(CellsOf(e.Tiles)))| <= IO_TMP_BUF
    modifies e.IoTmpBuf
    ensures p == start + |EncRuns(Runs(CellsOf(e.Tiles)))|
    ensures e.IoTmpBuf[..] == Written(old(e.IoTmpBuf[..]), start, EncRuns(Runs(CellsOf(e.Tiles))))
  {
    hide RunsFrom, EncRuns, Written, CellsOf;
    ghost var cells, buf := CellsOf(e.Tiles), e.IoTmpBuf[..];
    ghost var done: seq<TRleTile> := [];
    p := start;
    var ix, iy := 1, 1;
    var rle := TRleTile(1, e.Tiles[ix, iy]);
    CellAt(e, 1, 1);
    while iy <= BOARD_HEIGHT
      invariant 1 <= ix <= BOARD_WIDTH && 1 <= iy <= BOARD_HEIGHT + 1 && (iy > BOARD_HEIGHT ==> ix == 1)
      invariant p == start + SizeOfRleTile * |done| && p <= IO_TMP_BUF
      invariant e.IoTmpBuf[..] == Written(buf, start, EncRuns(done))
      invariant iy <= BOARD_HEIGHT ==>
        done + RunsFrom(cells, (iy - 1) * BOARD_WIDTH + ix, rle.Count, rle.Tile) == Runs(cells)
      invariant iy > BOARD_HEIGHT ==> done == Runs(cells)
      invariant CellsOf(e.Tiles) == cells
      decreases BOARD_HEIGHT + 1 - iy, BOARD_WIDTH - ix
    {
      ghost var n := (iy - 1) * BOARD_WIDTH + ix;
      ix := ix + 1;
      if ix > BOARD_WIDTH {
        ix := 1;
        iy := iy + 1;
      }
      assert iy <= BOARD_HEIGHT ==> cells[n] == e.Tiles[ix, iy] by {
        if iy <= BOARD_HEIGHT { CellAt(e, ix, iy); }
      }
      RunsFromStep(cells, n, rle, done);
      if e.Tiles[ix, iy].Color == rle.Tile.Color && e.Tiles[ix, iy].Element == rle.Tile.Element && rle.Count < 255
          && iy <= BOARD_HEIGHT {
        rle := rle.(Count := rle.Count + 1);
      } else {
        WriteRun(e, p, rle, start, buf, done);
        done := done + [rle];
        p := p + SizeOfRleTile;
        rle := TRleTile(1, e.Tiles[ix, iy]);
      }
    }
  }

  /** Replaces the length of stat ix by a reference, when an earlier stat has its program. */
  method ShareProgram(e: Engine, ix: nat, ghost stats: seq<TStat>)
    requires e.Sized() && ix < |stats| <= STAT_SLOTS
    requires forall k :: 0 <= k < |stats| ==> e.Stats[k].Data == stats[k].Data
    requires e.Stats[ix] == stats[ix]
    modifies e.Stats
    ensures e.Stats[..] == old(e.Stats[..])[ix := stats[ix].(DataLen := ClosedLen(stats, ix))]
  {
    if e.Stats[ix].DataLen > 0 {
      var iy := 1;
      while iy <= ix - 1
        invariant 1 <= iy && (iy <= ix || ix == 0)
        invariant var k: int := LastTwin(stats, ix, if ix == 0 then 0 else iy);
          e.Stats[..] == old(e.Stats[..])[ix := stats[ix].(DataLen := if k > 0 then -k else stats[ix].DataLen)]
      {
        if e.Stats[iy].Data == e.Stats[ix].Data {
          e.Stats[ix] := e.Stats[ix].(DataLen := -iy);
        }
        iy := iy + 1;
      }
    }
  }

  method WriteStat(e: Engine, ix: nat, p: nat, ghost stats: seq<TStat>) returns (q: nat)
    requires e.Sized() && ix < |stats| <= STAT_SLOTS && Storable(stats) && e.IoTmpBuf.Length == IO_TMP_BUF
    requires forall k :: 0 <= k < |stats| ==> e.Stats[k].Data == stats[k].Data
    requires e.Stats[ix] == stats[ix]
    requires p + |EncStatAndProgram(stats, ix)| <= IO_TMP_BUF
    modifies e.IoTmpBuf, e.Stats
    ensures q == p + |EncStatAndProgram(stats, ix)|
    ensures e.IoTmpBuf[..] == Written(old(e.IoTmpBuf[..]), p, EncStatAndProgram(stats, ix))
    ensures e.Stats[..] == old(e.Stats[..])[ix := stats[ix].(DataLen := ClosedLen(stats, ix))]
  {
    hide EncStat, Written;
    ghost var buf := e.IoTmpBuf[..];
    ShareProgram(e, ix, stats);
    var stat := e.Stats[ix];
    StoreStat(e.IoTmpBuf, p, stat);
    q := p + SizeOfStat;
    if stat.DataLen > 0 {
      CopyBytes(e.IoTmpBuf, q, Bytes(stat.Data));
      WrittenTwice(buf, p, EncStat(stat), Bytes(stat.Data));
      q := q + stat.DataLen;
    } else {
      assert EncStat(stat) + [] == EncStat(stat);
    }
  }

  /** The slots when stats 0..i-1 have been written. */
  ghost predicate ClosedUpTo(now: seq<TStat>, before: seq<TStat>, stats: seq<TStat>, i: nat) {
    && i <= |stats| <= |now| == |before| == STAT_SLOTS && stats <= before
    && (forall k :: 0 <= k < i ==> now[k] == Closed(stats)[k])
    && (forall k :: i <= k < |now| ==> now[k] == before[k])
  }

  lemma ClosedOneMore(now: seq<TStat>, before: seq<TStat>, stats: seq<TStat>, i: nat)
    requires ClosedUpTo(now, before, stats, i) && i < |stats|
    ensures forall k :: 0 <= k < |stats| ==> now[k].Data == stats[k].Data
    ensures now[i] == stats[i]
    ensures ClosedUpTo(now[i := stats[i].(DataLen := ClosedLen(stats, i))], before, stats, i + 1)
  {
  }

  method WriteStats(e: Engine, start: nat) returns (p: nat)
    requires e.Shaped() && e.IoTmpBuf.Length == IO_TMP_BUF && Storable(e.Stats[..e.StatCount + 1])
    requires start + |EncStatsFrom(e.Stats[..e.StatCount + 1], 0)| <= IO_TMP_BUF
    modifies e.IoTmpBuf, e.Stats
    ensures var stats := old(e.Stats[..e.StatCount + 1]);
      && p == start + |EncStatsFrom(stats, 0)|
      && e.IoTmpBuf[..] == Written(old(e.IoTmpBuf[..]), start, EncStatsFrom(stats, 0))
      && ClosedUpTo(e.Stats[..], old(e.Stats[..]), stats, |stats|)
  {
    hide Written, EncStatAndProgram, Closed, ClosedLen;
    ghost var stats, buf, done: seq<Byte> := e.Stats[..e.StatCount + 1], e.IoTmpBuf[..], [];
    p := start;
    var ix := 0;
    assert buf == Written(buf, start, []) by { NothingWritten(buf, start); }
    while ix <= e.StatCount
      invariant 0 <= ix <= |stats| && p == start + |done|
      invariant done + EncStatsFrom(stats, ix) == EncStatsFrom(stats, 0)
      invariant e.IoTmpBuf[..] == Written(buf, start, done)
      invariant ClosedUpTo(e.Stats[..], old(e.Stats[..]), stats, ix)
    {
      ClosedOneMore(e.Stats[..], old(e.Stats[..]), stats, ix);
      assert done + EncStatsFrom(stats, ix) == (done + EncStatAndProgram(stats, ix)) + EncStatsFrom(stats, ix + 1);
      p := WriteStat(e, ix, p, stats);
      WrittenTwice(buf, start, done, EncStatAndProgram(stats, ix));
      done := done + EncStatAndProgram(stats, ix);
      ix := ix + 1;
    }
    assert done + [] == done;
  }

  lemma NothingWritten(buf: seq<Byte>, at: nat)
    requires at <= |buf|
    ensures Written(buf, at, []) == buf
  {
  }

  ghost predicate ReadyToClose(e: Engine)
    reads e, e.Tiles, e.Stats
  {
    && e.Shaped() && e.StatCount >= 0 && e.IoTmpBuf.Length == IO_TMP_BUF && |e.Info.NeighborBoards| == 4
    && Storable(e.Stats[..e.StatCount + 1]) && |EncBoard(BoardOf(e))| <= IO_TMP_BUF
  }

  method BoardClose(e: Engine)
    requires ReadyToClose(e)
    modifies e`BoardData, e.IoTmpBuf, e.Stats
    ensures e.BoardData == old(e.BoardData)[e.CurrentBoard := EncBoard(old(BoardOf(e)))]
    ensures FileLayout.Laid(e.BoardData[e.CurrentBoard], old(BoardOf(e)))
    ensures ClosedUpTo(e.Stats[..], old(e.Stats[..]), old(e.Stats[..e.StatCount + 1]), e.StatCount + 1)
  {
    hide Written, EncString, EncRuns, EncBoardInfo, EncStatsFrom, Runs, Closed, CellsOf, FileLayout.Laid, EncBoard,
      EncHead, Storable;
    ghost var b, buf := BoardOf(e), e.IoTmpBuf[..];
    FileLayout.BoardIsLaid(b);
    HeadAndStats(b);
    var p := WriteHead(e, b);
    ghost var done := EncHead(b);
    p := WriteStats(e, p);
    WrittenTwice(buf, 0, done, EncStatsFrom(b.stats, 0));
    assert e.IoTmpBuf[..p] == EncBoard(b) by { WrittenThere(buf, e.IoTmpBuf[..], EncBoard(b)); }
    e.BoardData := e.BoardData[e.CurrentBoard := e.IoTmpBuf[..p]];
  }

  lemma HeadAndStats(b: Board)
    requires |b.cells| == CELLS && |b.info.NeighborBoards| == 4 && 1 <= |b.stats| <= STAT_SLOTS
    ensures EncBoard(b) == EncHead(b) + EncStatsFrom(b.stats, 0)
  {
  }

  lemma WrittenThere(buf: seq<Byte>, now: seq<Byte>, bytes: seq<Byte>)
    requires |bytes| <= |buf| && now == Written(buf, 0, bytes)
    ensures now[..|bytes|] == bytes
  {
  }

  /** Everything before the stats. */
  function EncHead(b: Board): seq<Byte>
    requires |b.cells| == CELLS && |b.info.NeighborBoards| == 4 && 1 <= |b.stats| <= STAT_SLOTS
  {
    EncString(b.name, SizeOfBoardName) + EncRuns(Runs(b.cells)) + EncBoardInfo(b.info)
      + [Lo(|b.stats| - 1), Hi(|b.stats| - 1)]
  }

  method WriteHead(e: Engine, ghost b: Board) returns (p: nat)
    requires ReadyToClose(e) && b == BoardOf(e)
    modifies e.IoTmpBuf
    ensures p == |EncHead(b)| <= e.IoTmpBuf.Length && e.IoTmpBuf[..] == Written(old(e.IoTmpBuf[..]), 0, EncHead(b))
  {
    ghost var buf := e.IoTmpBuf[..];
    BoardSizes(b);
    StoreString(e.IoTmpBuf, 0, SizeOfBoardName, e.BoardName);
    hide Written, EncString, EncRuns, EncBoardInfo, EncStatsFrom, Runs, Closed, CellsOf;
    ghost var done := EncString(b.name, SizeOfBoardName);
    p := WriteTiles(e, SizeOfBoardName);
    WrittenTwice(buf, 0, done, EncRuns(Runs(b.cells)));
    done := done + EncRuns(Runs(b.cells));
    StoreBoardInfo(e.IoTmpBuf, p, e.Info);
    WrittenTwice(buf, 0, done, EncBoardInfo(b.info));
    done := done + EncBoardInfo(b.info);
    p := p + SizeOfBoardInfo;
    StoreInt16(e.IoTmpBuf, p, e.StatCount);
    WrittenTwice(buf, 0, done, [Lo(e.StatCount), Hi(e.StatCount)]);
    p := p + 2;
  }

  lemma BoardSizes(b: Board)
    requires |b.cells| == CELLS && |b.info.NeighborBoards| == 4 && 1 <= |b.stats| <= STAT_SLOTS
    ensures |EncBoard(b)| ==
      SizeOfBoardName + |EncRuns(Runs(b.cells))| + SizeOfBoardInfo + 2 + |EncStatsFrom(b.stats, 0)|
  {
  }

  // ---- BoardOpen ---------------------------------------------------------

  ghost predicate Edged(tiles: array2<TTile>)
    requires tiles.Length0 == GRID_W && tiles.Length1 == GRID_H
    reads tiles
  {
    forall x, y :: InGrid(x, y) && !OnBoard(x, y) ==> tiles[x, y] == TTile(1, 0)
  }

  method DrawEdges(e: Engine)
    requires e.Sized()
    modifies e.Tiles
    ensures Edged(e.Tiles)
  {
    for ix := 0 to GRID_W
      invariant forall x, y :: 0 <= x < ix && (y == 0 || y == BOARD_HEIGHT + 1) ==>
        e.Tiles[x, y] == TTile(E_BOARD_EDGE, 0)
    {
      e.Tiles[ix, 0] := TTile(E_BOARD_EDGE, 0);
      e.Tiles[ix, BOARD_HEIGHT + 1] := TTile(E_BOARD_EDGE, 0);
    }
    for iy := 0 to GRID_H
      invariant forall x, y :: 0 <= x < GRID_W && (y == 0 || y == BOARD_HEIGHT + 1) ==>
        e.Tiles[x, y] == TTile(E_BOARD_EDGE, 0)
      invariant forall x, y :: (x == 0 || x == BOARD_WIDTH + 1) && 0 <= y < iy ==>
        e.Tiles[x, y] == TTile(E_BOARD_EDGE, 0)
    {
      e.Tiles[0, iy] := TTile(E_BOARD_EDGE, 0);
      e.Tiles[BOARD_WIDTH + 1, iy] := TTile(E_BOARD_EDGE, 0);
    }
  }

  method ForgetScrollAudience(e: Engine)
    modifies e.ScrollAudience
    ensures forall i :: 0 <= i < e.ScrollAudience.Length ==> e.ScrollAudience[i] == 0
  {
    for i := 0 to e.ScrollAudience.Length
      invariant forall k :: 0 <= k < i ==> e.ScrollAudience[k] == 0
    {
      e.ScrollAudience[i] := 0;
    }
  }

  method ReadTiles(e: Engine, d: seq<Byte>, start: nat) returns (p: nat)
    requires e.Sized() && OpenTiles(d, start, TRleTile(0, TTile(0, 0)), 0).Some?
    modifies e.Tiles
    ensures (CellsOf(e.Tiles), p) == OpenTiles(d, start, TRleTile(0, TTile(0, 0)), 0).value
    ensures forall x, y :: InGrid(x, y) && !OnBoard(x, y) ==> e.Tiles[x, y] == old(e.Tiles[x, y])
  {
    hide OpenTiles;
    p := start;
    var ix, iy := 1, 1;
    var rle := TRleTile(0, TTile(0, 0));
    ghost var whole := OpenTiles(d, p, rle, 0).value;
    ghost var n := 0;
    while iy <= BOARD_HEIGHT
      invariant 1 <= ix <= BOARD_WIDTH && 1 <= iy <= BOARD_HEIGHT + 1 && (iy > BOARD_HEIGHT ==> ix == 1)
      invariant n == (iy - 1) * BOARD_WIDTH + (ix - 1) && n <= CELLS
      invariant OpenTiles(d, p, rle, n).Some? && whole.1 == OpenTiles(d, p, rle, n).value.1
      invariant whole.0[n..] == OpenTiles(d, p, rle, n).value.0
      invariant forall m :: 0 <= m < n ==> CellsOf(e.Tiles)[m] == whole.0[m]
      invariant forall x, y :: InGrid(x, y) && !OnBoard(x, y) ==> e.Tiles[x, y] == old(e.Tiles[x, y])
      decreases CELLS - n
    {
      OpenTilesStep(d, p, rle, n);
      if rle.Count <= 0 {
        rle := LoadRleTile(d[p..p + SizeOfRleTile]);
        p := p + SizeOfRleTile;
      }
      assert whole.0[n] == whole.0[n..][0] == rle.Tile;
      SetCell(e, ix, iy, rle.Tile);
      ix := ix + 1;
      if ix > BOARD_WIDTH {
        ix := 1;
        iy := iy + 1;
      }
      rle := rle.(Count := (rle.Count + 255) % 256);
      assert whole.0[n + 1..] == whole.0[n..][1..];
      n := n + 1;
    }
    assert OpenTiles(d, p, rle, CELLS) == Some(([], p)) by { NoCellsLeft(d, p, rle); }
    assert CellsOf(e.Tiles) == whole.0;
  }

  method SetCell(e: Engine, ix: int, iy: int, tile: TTile)
    requires e.Sized() && OnBoard(ix, iy)
    modifies e.Tiles
    ensures CellsOf(e.Tiles) == old(CellsOf(e.Tiles))[(iy - 1) * BOARD_WIDTH + ix - 1 := tile]
    ensures forall x, y :: InGrid(x, y) && !OnBoard(x, y) ==> e.Tiles[x, y] == old(e.Tiles[x, y])
  {
    e.Tiles[ix, iy] := tile;
    CellAt(e, ix, iy);
    forall m | 0 <= m < CELLS && m != (iy - 1) * BOARD_WIDTH + ix - 1
      ensures CellsOf(e.Tiles)[m] == old(CellsOf(e.Tiles))[m]
    {
      assert (m % BOARD_WIDTH + 1, m / BOARD_WIDTH + 1) != (ix, iy);
    }
  }

  method ReadStats(e: Engine, d: seq<Byte>, start: nat)
    requires e.Sized() && OpenStats(d, start, e.Stats[..], 0, e.StatCount).Some?
    modifies e.Stats
    ensures e.Stats[..] == OpenStats(d, start, old(e.Stats[..]), 0, e.StatCount).value.slots
  {
    hide OpenStats, LoadStat;
    var p: nat := start;
    ghost var whole := OpenStats(d, p, e.Stats[..], 0, e.StatCount);
    var ix := 0;
    while ix <= e.StatCount
      invariant 0 <= ix && (ix <= e.StatCount + 1 || ix == 0)
      invariant OpenStats(d, p, e.Stats[..], ix, e.StatCount) == whole
    {
      ghost var slots := e.Stats[..];
      OpenStatsStep(d, p, slots, ix, e.StatCount);
      e.Stats[ix] := LoadStat(d[p..p + SizeOfStat], e.Stats[ix]);
      p := p + SizeOfStat;
      var stat := e.Stats[ix];
      assert e.Stats[..] == slots[ix := stat];
      if stat.DataLen > 0 {
        e.Stats[ix] := stat.(Data := Chars(d[p..p + stat.DataLen]));
        p := p + stat.DataLen;
      } else if stat.DataLen < 0 {
        var k := -(stat.DataLen as int);
        e.Stats[ix] := stat.(Data := e.Stats[k].Data, DataLen := e.Stats[k].DataLen);
      }
      assert e.Stats[..] == slots[ix := e.Stats[ix]];
      ix := ix + 1;
    }
    OpenStatsDone(d, p, e.Stats[..], ix, e.StatCount);
  }

  /** The board BoardOpen reads: the one asked for, or the current one when there is no such board. */
  function Target(e: Engine, boardId: int): int
    reads e
  {
    if boardId > e.BoardCount then e.CurrentBoard else boardId
  }

  method BoardOpen(e: Engine, boardId: int)
    requires e.Sized() && Target(e, boardId) in e.BoardData
    requires OpenBoard(e.BoardData[Target(e, boardId)], e.Stats[..]).Some?
    modifies e`BoardName, e`Info, e`StatCount, e`CurrentBoard, e.Tiles, e.Stats, e.ScrollAudience
    ensures var r := OpenBoard(old(e.BoardData[Target(e, boardId)]), old(e.Stats[..])).value;
      && e.BoardName == r.name && CellsOf(e.Tiles) == r.cells && e.Info == r.info && e.StatCount == r.count
      && e.Stats[..] == r.slots
      && FileLayout.Read(old(e.BoardData[Target(e, boardId)]), old(e.Stats[..]), r)
    ensures Edged(e.Tiles) && e.CurrentBoard == old(Target(e, boardId))
    ensures e.CurrentBoard == if boardId > old(e.BoardCount) then old(e.CurrentBoard) else boardId
    ensures forall i :: 0 <= i < e.ScrollAudience.Length ==> e.ScrollAudience[i] == 0
  {
    hide CellsOf, OpenTiles, OpenStats, LoadBoardInfo, LoadString, LoadInt16, FileLayout.Read;
    ForgetScrollAudience(e);
    var target := Target(e, boardId);
    DrawEdges(e);
    var d := e.BoardData[target];
    FileLayout.BoardIsRead(d, e.Stats[..]);
    e.BoardName := LoadString(d[..SizeOfBoardName]);
    var p := ReadTiles(e, d, SizeOfBoardName);
    e.Info := LoadBoardInfo(d[p..p + SizeOfBoardInfo]);
    p := p + SizeOfBoardInfo;
    e.StatCount := LoadInt16(d[p], d[p + 1]);
    ReadStats(e, d, p + 2);
    e.CurrentBoard := target;
  }

  /** The slots a board is opened over when it has just been closed. */
  ghost function SlotsAfterClose(slots: seq<TStat>, count: int): (r: seq<TStat>)
    requires 0 <= count < |slots| == STAT_SLOTS
    ensures |r| == STAT_SLOTS
  {
    Closed(slots[..count + 1]) + slots[count + 1..]
  }

  lemma ClosedSlots(now: seq<TStat>, slots: seq<TStat>, count: int)
    requires 0 <= count < |slots| == STAT_SLOTS && ClosedUpTo(now, slots, slots[..count + 1], count + 1)
    ensures now == SlotsAfterClose(slots, count)
  {
  }

  /** Closing and reopening the current board in place puts the whole board back when
      no length is a reference and no dead stat holds the program of a later live one.
      In any case a stat's program comes back exactly when it is rooted. */
  method CloseAndReopen(e: Engine)
    requires ReadyToClose(e) && e.CurrentBoard <= e.BoardCount && WellFormed(BoardOf(e))
    modifies e, e.IoTmpBuf, e.Tiles, e.Stats, e.ScrollAudience
    ensures e.Shaped() && Edged(e.Tiles) && BoardOf(e).(stats := []) == old(BoardOf(e)).(stats := [])
    ensures e.StatCount == old(e.StatCount) && |old(BoardOf(e)).stats| == e.StatCount + 1
    ensures var b := old(BoardOf(e));
      NoReferences(b.stats) && NoStaleTwin(b.stats) ==> BoardOf(e) == b
    ensures forall i :: 0 <= i <= e.StatCount ==>
      var b, slots := old(BoardOf(e)), SlotsAfterClose(old(e.Stats[..]), old(e.StatCount));
      && e.Stats[i] == Restored(b.stats, slots, i)
      && (Kept(b.stats, slots, i) <==> Rooted(b.stats, slots, i))
  {
    hide EncBoard, OpenBoard, CellsOf, SlotsAfterClose, Closed, ClosedUpTo, Rooted, Restored, Kept, WellFormed,
      FileLayout.Laid, FileLayout.Read, Storable, NoReferences, NoStaleTwin;
    ghost var b, slots := BoardOf(e), e.Stats[..];
    ghost var count := e.StatCount;
    BoardClose(e);
    ClosedSlots(e.Stats[..], slots, count);
    Reopens(b, slots, count);
    BoardOpen(e, e.CurrentBoard);
    ghost var closed := SlotsAfterClose(slots, count);
    forall i | 0 <= i <= count
      ensures e.Stats[i] == Restored(b.stats, closed, i) && (Kept(b.stats, closed, i) <==> Rooted(b.stats, closed, i))
    {
      assert e.Stats[..][i] == Restored(b.stats, closed, i);
    }
    assert NoReferences(b.stats) && NoStaleTwin(b.stats) ==> e.Stats[..count + 1] == b.stats;
  }

  /** What opening makes of the bytes and the slots that closing has left. */
  lemma Reopens(b: Board, slots: seq<TStat>, count: int)
    requires 0 <= count < |slots| == STAT_SLOTS && b.stats == slots[..count + 1] && WellFormed(b)
    ensures var closed := SlotsAfterClose(slots, count);
      && OpenBoard(EncBoard(b), closed).Some?
      && var r := OpenBoard(EncBoard(b), closed).value;
        && r.name == b.name && r.cells == b.cells && r.info == b.info && r.count == count && |r.slots| == STAT_SLOTS
        && (NoReferences(b.stats) && NoStaleTwin(b.stats) ==> r.slots[..count + 1] == b.stats)
        && forall i :: 0 <= i <= count ==>
          r.slots[i] == Restored(b.stats, closed, i) && (Kept(b.stats, closed, i) <==> Rooted(b.stats, closed, i))
  {
    var closed := SlotsAfterClose(slots, count);
    OpenBoardReads(b, closed);
    hide EncBoard, OpenBoard, Rooted, Restored, Kept;
    if NoReferences(b.stats) && NoStaleTwin(b.stats) {
      BoardRoundTrip(b, closed);
    }
    forall i | 0 <= i <= count
      ensures Kept(b.stats, closed, i) <==> Rooted(b.stats, closed, i)
    {
      ProgramComesBack(b.stats, closed, i);
    }
  }
}
