/** The file format byte by byte (engine/serialize.go, engine/game.go): what closing a
    board stores, and what opening reads out of any bytes, as offsets and arithmetic. */
module FileLayout {
  import opened GameVars
  import opened Serialize
  import opened BoardCodec

  // ---- Fields ------------------------------------------------------------

  /** A 16-bit number, low byte first, negative ones from 65536 down. */
  predicate Word(lo: Byte, hi: Byte, v: int) {
    -32768 <= v <= 32767 && v % 65536 == lo + 256 * hi
  }

  predicate Blank(e: seq<Byte>) {
    forall k :: 0 <= k < |e| ==> e[k] == 0
  }

  /** A string behind its length, cut to the room there is and filled up with zeros. */
  predicate TextStored(e: seq<Byte>, s: string)
    requires 1 <= |e| <= 256
  {
    && e[0] == (if |s| < |e| then |s| else |e| - 1)
    && (forall k :: 1 <= k <= e[0] ==> e[k] == s[k - 1] as int % 256)
    && Blank(e[1 + e[0]..])
  }

  /** The string read: as long as the first byte says, or as there is room. */
  predicate TextRead(e: seq<Byte>, s: string)
    requires 1 <= |e| <= 256
  {
    && |s| == (if e[0] < |e| then e[0] else |e| - 1)
    && forall k :: 0 <= k < |s| ==> s[k] as int == e[k + 1]
  }

  /** The fields of a stat's 33 bytes other than its program. */
  predicate StatFields(e: seq<Byte>, s: TStat)
    requires |e| == 33
  {
    && e[0] == s.X && e[1] == s.Y
    && Word(e[2], e[3], s.StepX) && Word(e[4], e[5], s.StepY) && Word(e[6], e[7], s.Cycle)
    && e[8] == s.P1 && e[9] == s.P2 && e[10] == s.P3
    && Word(e[11], e[12], s.Follower) && Word(e[13], e[14], s.Leader)
    && e[15] == s.Under.Element && e[16] == s.Under.Color
    && Word(e[21], e[22], s.DataPos)
  }

  /** The fields of the 86 bytes of board information other than its message. */
  predicate InfoFields(e: seq<Byte>, i: TBoardInfo)
    requires |e| == 86
  {
    && e[0] == i.MaxShots && (e[1] != 0 <==> i.IsDark)
    && [e[2], e[3], e[4], e[5]] == i.NeighborBoards && (e[6] != 0 <==> i.ReenterWhenZapped)
    && e[66] == i.StartPlayerX && e[67] == i.StartPlayerY && Word(e[68], e[69], i.TimeLimitSec)
  }

  // ---- What closing stores -----------------------------------------------

  predicate StatStored(e: seq<Byte>, s: TStat, length: int) {
    && |e| == 33 && StatFields(e, s) && Word(e[23], e[24], length)
    && Blank(e[17..21]) && Blank(e[25..33])
  }

  predicate InfoStored(e: seq<Byte>, i: TBoardInfo) {
    && |e| == 86 && InfoFields(e, i) && e[1] <= 1 && e[6] <= 1
    && TextStored(e[7..66], i.Message) && Blank(e[70..86])
  }

  /** The length stored for a program: its own, or minus the number of the last of the
      stats 1.. before it that has the same text; what is no length stays as it is. */
  ghost predicate StoredLength(stats: seq<TStat>, i: nat, v: int)
    requires i < |stats|
  {
    if stats[i].DataLen <= 0 then v == stats[i].DataLen
    else if v > 0 then v == stats[i].DataLen && forall j :: 1 <= j < i ==> stats[j].Data != stats[i].Data
    else 1 <= -v < i && stats[-v].Data == stats[i].Data && forall j :: -v < j < i ==> stats[j].Data != stats[i].Data
  }

  /** The stats from the i-th on: 33 bytes each, and the program where its length is stored. */
  ghost predicate StatsStored(e: seq<Byte>, stats: seq<TStat>, i: nat)
    requires i <= |stats|
    decreases |stats| - i
  {
    if i == |stats| then e == []
    else
      exists v: int ::
        var size := if v > 0 then |stats[i].Data| else 0;
        && StoredLength(stats, i, v) && 33 + size <= |e| && StatStored(e[..33], stats[i], v)
        && (forall k :: 0 <= k < size ==> e[33..33 + size][k] == stats[i].Data[k] as int % 256)
        && StatsStored(e[33 + size..], stats, i + 1)
  }

  /** A stored board: name, runs, information, the number of the last stat, stats. */
  ghost predicate Laid(d: seq<Byte>, b: Board)
    requires |b.cells| == CELLS
  {
    var runs := Runs(b.cells);
    var n := |runs|;
    && 139 + 3 * n <= |d| && TextStored(d[..51], b.name)
    && (forall k :: 0 <= k < n ==>
          d[51 + 3 * k..54 + 3 * k] == [runs[k].Count, runs[k].Tile.Element, runs[k].Tile.Color])
    && InfoStored(d[51 + 3 * n..137 + 3 * n], b.info)
    && Word(d[137 + 3 * n], d[138 + 3 * n], |b.stats| - 1)
    && StatsStored(d[139 + 3 * n..], b.stats, 0)
  }

  lemma WordStored(v: Int16)
    ensures Word(Lo(v), Hi(v), v)
  {
  }

  lemma TextIsStored(s: string, size: nat)
    requires 1 <= size <= 256
    ensures TextStored(EncString(s, size), s)
  {
  }

  lemma StatIsStored(s: TStat)
    ensures StatStored(EncStat(s), s, s.DataLen)
  {
    hide Lo, Hi, Word;
    WordStored(s.StepX);
    WordStored(s.StepY);
    WordStored(s.Cycle);
    WordStored(s.Follower);
    WordStored(s.Leader);
    WordStored(s.DataPos);
    WordStored(s.DataLen);
  }

  lemma InfoIsStored(i: TBoardInfo)
    requires |i.NeighborBoards| == 4
    ensures InfoStored(EncBoardInfo(i), i)
  {
    hide Lo, Hi, Word, EncString, TextStored;
    WordStored(i.TimeLimitSec);
    TextIsStored(i.Message, 59);
    var e := EncBoardInfo(i);
    assert e[7..66] == EncString(i.Message, 59);
    assert e[70..86] == Zeros(16);
  }

  lemma {:induction false} RunsAreStored(runs: seq<TRleTile>, k: nat)
    requires k < |runs|
    ensures EncRuns(runs)[3 * k..3 * k + 3] == [runs[k].Count, runs[k].Tile.Element, runs[k].Tile.Color]
  {
    var e := EncRuns(runs);
    if k > 0 {
      RunsAreStored(runs[1..], k - 1);
      assert e[3..] == EncRuns(runs[1..]);
      assert e[3 * k..3 * k + 3] == e[3..][3 * (k - 1)..3 * (k - 1) + 3];
    }
  }

  lemma LengthIsStored(stats: seq<TStat>, i: nat)
    requires i < |stats| <= STAT_SLOTS
    ensures StoredLength(stats, i, ClosedLen(stats, i))
  {
  }

  lemma {:induction false} StatsAreStored(stats: seq<TStat>, i: nat)
    requires i <= |stats| <= STAT_SLOTS
    ensures StatsStored(EncStatsFrom(stats, i), stats, i)
    decreases |stats| - i
  {
    hide EncStat, StatStored, StoredLength, ClosedLen;
    if i < |stats| {
      var e, v := EncStatsFrom(stats, i), ClosedLen(stats, i);
      var size := if v > 0 then |stats[i].Data| else 0;
      LengthIsStored(stats, i);
      StatIsStored(stats[i].(DataLen := v));
      StatsAreStored(stats, i + 1);
      assert e[..33] == EncStat(stats[i].(DataLen := v));
      assert e[33..33 + size] == if v > 0 then Bytes(stats[i].Data) else [];
      assert e[33 + size..] == EncStatsFrom(stats, i + 1);
      SameFields(e[..33], stats[i].(DataLen := v), stats[i], v);
    }
  }

  lemma SameFields(e: seq<Byte>, s: TStat, t: TStat, v: int)
    requires StatStored(e, s, v) && s == t.(DataLen := s.DataLen)
    ensures StatStored(e, t, v)
  {
  }

  /** Where the parts of a stored board lie. */
  lemma PartsLie(b: Board)
    requires |b.cells| == CELLS && |b.info.NeighborBoards| == 4 && 1 <= |b.stats| <= STAT_SLOTS
    ensures var d, n := EncBoard(b), |Runs(b.cells)|;
      && 139 + 3 * n <= |d| && d[..51] == EncString(b.name, 51)
      && d[51..51 + 3 * n] == EncRuns(Runs(b.cells))
      && d[51 + 3 * n..137 + 3 * n] == EncBoardInfo(b.info)
      && d[137 + 3 * n] == Lo(|b.stats| - 1) && d[138 + 3 * n] == Hi(|b.stats| - 1)
      && d[139 + 3 * n..] == EncStatsFrom(b.stats, 0)
  {
    hide EncString, EncBoardInfo, EncStatsFrom, Runs, Lo, Hi;
  }

  /** The bytes closing stores are laid out as the format says. */
  lemma BoardIsLaid(b: Board)
    requires |b.cells| == CELLS && |b.info.NeighborBoards| == 4 && 1 <= |b.stats| <= STAT_SLOTS
    ensures Laid(EncBoard(b), b)
  {
    hide EncBoard, EncString, EncBoardInfo, EncStatsFrom, Runs, Lo, Hi, TextStored, InfoStored, StatsStored, Word,
      EncRuns;
    var d, runs := EncBoard(b), Runs(b.cells);
    var n := |runs|;
    PartsLie(b);
    TextIsStored(b.name, 51);
    InfoIsStored(b.info);
    WordStored(|b.stats| - 1);
    StatsAreStored(b.stats, 0);
    forall k | 0 <= k < n
      ensures d[51 + 3 * k..54 + 3 * k] == [runs[k].Count, runs[k].Tile.Element, runs[k].Tile.Color]
    {
      RunsAreStored(runs, k);
      SliceOfSlice(d, 51, 51 + 3 * n, 3 * k, 3 * k + 3);
    }
  }

  lemma SliceOfSlice(d: seq<Byte>, p: nat, q: nat, i: nat, j: nat)
    requires p <= q <= |d| && i <= j <= q - p
    ensures d[p..q][i..j] == d[p + i..p + j]
  {
    forall k | 0 <= k < j - i
      ensures d[p..q][i..j][k] == d[p + i..p + j][k]
    {
      assert d[p..q][i + k] == d[p + i + k];
    }
  }

  // ---- What opening reads ------------------------------------------------

  /** The cells the k-th run stands for: its count, and 256 for a count of zero. */
  function Span(d: seq<Byte>, k: nat): nat
    requires 51 + 3 * k < |d|
  {
    if d[51 + 3 * k] == 0 then 256 else d[51 + 3 * k]
  }

  /** The cells the first k runs stand for. */
  function Covered(d: seq<Byte>, k: nat): nat
    requires 51 + 3 * k <= |d| + 2
  {
    if k == 0 then 0 else Covered(d, k - 1) + Span(d, k - 1)
  }

  /** The k-th run gives its element and colour to the cells it stands for, behind those
      of the runs before it. */
  ghost predicate RunShows(d: seq<Byte>, k: nat, cells: seq<TTile>)
    requires 54 + 3 * k <= |d|
  {
    forall c :: Covered(d, k) <= c < Covered(d, k) + Span(d, k) && c < |cells| ==>
        cells[c] == TTile(d[52 + 3 * k], d[53 + 3 * k])
  }

  /** n runs are read, no more than it takes for 1500 cells. */
  ghost predicate CellsRead(d: seq<Byte>, n: nat, cells: seq<TTile>) {
    && 51 + 3 * n <= |d| && |cells| == 1500 && n > 0 && Covered(d, n - 1) < 1500 <= Covered(d, n)
    && forall k :: 0 <= k < n ==> RunShows(d, k, cells)
  }

  predicate InfoRead(e: seq<Byte>, i: TBoardInfo) {
    |e| == 86 && InfoFields(e, i) && TextRead(e[7..66], i.Message)
  }

  /** The stats from the i-th to the last as read from e over the slots `before`: a length
      above 0 is followed by the program, 0 leaves the slot's, one below 0 names the stat
      to copy from, which is as read if it came before. */
  ghost predicate StatsRead(e: seq<Byte>, i: nat, last: int, before: seq<TStat>, after: seq<TStat>)
    requires |before| == |after|
    decreases last - i
  {
    i > last
    || (exists v: int ::
          var size := if v > 0 then v else 0;
          && i < |after| && 33 + size <= |e| && StatFields(e[..33], after[i]) && Word(e[23], e[24], v)
          && (v > 0 ==> after[i].DataLen == v == |after[i].Data|)
          && (v > 0 ==> forall k :: 0 <= k < v ==> after[i].Data[k] as int == e[33..][k])
          && (v == 0 ==> after[i].DataLen == 0 && after[i].Data == before[i].Data)
          && (v < 0 ==> -v < |after| && SharedRead(i, -v, before, after))
          && StatsRead(e[33 + size..], i + 1, last, before, after))
  }

  /** Stat i has the program of stat k: the one just read, or the one left in the slot. */
  ghost predicate SharedRead(i: nat, k: int, before: seq<TStat>, after: seq<TStat>)
    requires |before| == |after| && i < |after| && 0 <= k < |after|
  {
    && (k < i ==> after[i].Data == after[k].Data && after[i].DataLen == after[k].DataLen)
    && (k == i ==> after[i].Data == before[i].Data && after[i].DataLen == -k)
    && (k > i ==> after[i].Data == before[k].Data && after[i].DataLen == before[k].DataLen)
  }

  /** What opening makes of any bytes it gets through. */
  ghost predicate Read(d: seq<Byte>, slots: seq<TStat>, r: OpenedBoard) {
    && 51 <= |d| && |slots| == |r.slots| && TextRead(d[..51], r.name)
    && (exists n: nat ::
          && 139 + 3 * n <= |d| && CellsRead(d, n, r.cells) && InfoRead(d[51 + 3 * n..137 + 3 * n], r.info)
          && Word(d[137 + 3 * n], d[138 + 3 * n], r.count)
          && StatsRead(d[139 + 3 * n..], 0, r.count, slots, r.slots))
    && forall i :: 0 <= i < |slots| && i > r.count ==> r.slots[i] == slots[i]
  }

  lemma WordRead(lo: Byte, hi: Byte)
    ensures Word(lo, hi, LoadInt16(lo, hi))
  {
  }

  lemma TextIsRead(e: seq<Byte>)
    requires 1 <= |e| <= 256
    ensures TextRead(e, LoadString(e))
  {
  }

  lemma InfoIsRead(e: seq<Byte>)
    requires |e| == 86
    ensures InfoRead(e, LoadBoardInfo(e))
  {
    hide Word, LoadInt16, TextRead, LoadString;
    TextIsRead(e[7..66]);
    WordRead(e[68], e[69]);
    assert e[2..6] == [e[2], e[3], e[4], e[5]];
  }

  lemma StatIsRead(e: seq<Byte>, into: TStat)
    requires |e| == 33
    ensures var s := LoadStat(e, into);
      StatFields(e, s) && Word(e[23], e[24], s.DataLen) && s.Data == into.Data
  {
    hide Word, LoadInt16;
    WordRead(e[2], e[3]);
    WordRead(e[4], e[5]);
    WordRead(e[6], e[7]);
    WordRead(e[11], e[12]);
    WordRead(e[13], e[14]);
    WordRead(e[21], e[22]);
    WordRead(e[23], e[24]);
  }

  lemma FetchedRun(d: seq<Byte>, k: nat) returns (rle: TRleTile)
    requires 54 + 3 * k <= |d|
    ensures rle == LoadRleTile(d[51 + 3 * k..54 + 3 * k]) && rle.Tile == TTile(d[52 + 3 * k], d[53 + 3 * k])
    ensures Covered(d, k + 1) == Covered(d, k) + Span(d, k) && Span(d, k) == 1 + (rle.Count + 255) % 256
  {
    rle := LoadRleTile(d[51 + 3 * k..54 + 3 * k]);
  }

  /** The loop over the cells, from cell c on with k runs fetched and rle.Count cells of
      the last one left. */
  lemma {:induction false} CellsAreRead(d: seq<Byte>, k: nat, rle: TRleTile, c: nat, cells: seq<TTile>)
    returns (n: nat)
    requires c <= CELLS == |cells| && 51 + 3 * k <= |d| && OpenTiles(d, 51 + 3 * k, rle, c).Some?
    requires OpenTiles(d, 51 + 3 * k, rle, c).value.0 == cells[c..]
    requires c + rle.Count == Covered(d, k) && (k > 0 ==> Covered(d, k - 1) < 1500)
    ensures OpenTiles(d, 51 + 3 * k, rle, c).value.1 == 51 + 3 * n <= |d|
    ensures k <= n && Covered(d, n) >= 1500 && (n > 0 ==> Covered(d, n - 1) < 1500)
    ensures forall m :: c <= m < Covered(d, k) && m < 1500 ==> cells[m] == rle.Tile
    ensures forall j :: k <= j < n ==> RunShows(d, j, cells)
    decreases CELLS - c
  {
    hide OpenTiles, Covered, Span, LoadRleTile;
    if c == CELLS {
      NoCellsLeft(d, 51 + 3 * k, rle);
      n := k;
    } else {
      OpenTilesStep(d, 51 + 3 * k, rle, c);
      assert cells[c..][1..] == cells[c + 1..] && cells[c..][0] == cells[c];
      if rle.Count > 0 {
        n := CellsAreRead(d, k, rle.(Count := rle.Count - 1), c + 1, cells);
      } else {
        var now := FetchedRun(d, k);
        n := CellsAreRead(d, k + 1, now.(Count := (now.Count + 255) % 256), c + 1, cells);
      }
    }
  }

  /** What one turn of the loop over the stats makes of the slots. */
  lemma StatTurn(d: seq<Byte>, p: nat, now: seq<TStat>, i: nat, last: int) returns (s: TStat, q: nat, v: int)
    requires i <= last && OpenStats(d, p, now, i, last).Some?
    ensures i < |now| && p + 33 <= q <= |d|
    ensures OpenStats(d, p, now, i, last) == OpenStats(d, q, now[i := s], i + 1, last)
    ensures StatFields(d[p..p + 33], s)
    ensures Word(d[p + 23], d[p + 24], v) && OneRead(d[p + 33..q], i, v, now, s)
  {
    hide OpenStats, LoadStat, StatFields, Word, Chars;
    OpenStatsStep(d, p, now, i, last);
    StatIsRead(d[p..p + 33], now[i]);
    s := LoadStat(d[p..p + 33], now[i]);
    v := s.DataLen;
    q := p + 33;
    assert d[p..p + 33][23] == d[p + 23] && d[p..p + 33][24] == d[p + 24];
    var fields := s;
    if v > 0 {
      q := q + v;
      s := s.(Data := Chars(d[p + 33..q]));
      ReadText(d[p + 33..q]);
    } else if v < 0 {
      s := s.(Data := now[i := s][-v].Data, DataLen := now[i := s][-v].DataLen);
    }
    FieldsOnly(d[p..p + 33], fields, s);
    assert OneRead(d[p + 33..q], i, v, now, s);
  }

  /** The program and length of stat i for the stored length v, over the slots `now`. */
  ghost predicate OneRead(text: seq<Byte>, i: nat, v: int, now: seq<TStat>, s: TStat) {
    && i < |now| && |text| == (if v > 0 then v else 0) && -v < |now|
    && (v > 0 ==> s.DataLen == v == |s.Data| && forall k :: 0 <= k < v ==> s.Data[k] as int == text[k])
    && (v == 0 ==> s.DataLen == 0 && s.Data == now[i].Data)
    && (v < 0 && -v == i ==> s.DataLen == v && s.Data == now[i].Data)
    && (v < 0 && -v != i ==> s.DataLen == now[-v].DataLen && s.Data == now[-v].Data)
  }

  lemma FieldsOnly(e: seq<Byte>, s: TStat, t: TStat)
    requires |e| == 33 && StatFields(e, s) && t == s.(Data := t.Data, DataLen := t.DataLen)
    ensures StatFields(e, t)
  {
  }

  lemma ReadText(e: seq<Byte>)
    ensures |Chars(e)| == |e| && forall k :: 0 <= k < |e| ==> Chars(e)[k] as int == e[k]
  {
  }

  /** Slots below the next to read are not touched any more. */
  lemma {:induction false} ReadSlotsStay(d: seq<Byte>, p: nat, now: seq<TStat>, i: nat, last: int)
    requires OpenStats(d, p, now, i, last).Some?
    ensures var r := OpenStats(d, p, now, i, last).value.slots;
      |r| == |now| && forall j :: 0 <= j < |now| && (j < i || j > last) ==> r[j] == now[j]
    decreases last - i
  {
    hide *;
    if i > last {
      OpenStatsDone(d, p, now, i, last);
    } else {
      var s, q, v := StatTurn(d, p, now, i, last);
      ReadSlotsStay(d, q, now[i := s], i + 1, last);
    }
  }

  lemma {:induction false} StatsAreRead(d: seq<Byte>, p: nat, now: seq<TStat>, i: nat, last: int, before: seq<TStat>)
    requires OpenStats(d, p, now, i, last).Some? && p <= |d|
    requires |before| == |now| && forall j :: i <= j < |now| ==> now[j] == before[j]
    ensures StatsRead(d[p..], i, last, before, OpenStats(d, p, now, i, last).value.slots)
    decreases last - i
  {
    hide OpenStats, StatFields, Word, OneRead, SharedRead;
    if i <= last {
      var s, q, v := StatTurn(d, p, now, i, last);
      var after := OpenStats(d, p, now, i, last).value.slots;
      ReadSlotsStay(d, p, now, i, last);
      ReadSlotsStay(d, q, now[i := s], i + 1, last);
      StatsAreRead(d, q, now[i := s], i + 1, last, before);
      OneIsRead(d, p, q, i, v, now, s, before, after);
      assert d[p..][33 + (if v > 0 then v else 0)..] == d[q..];
      assert d[p..][..33] == d[p..p + 33];
    }
  }

  lemma OneIsRead(d: seq<Byte>, p: nat, q: nat, i: nat, v: int, now: seq<TStat>, s: TStat, before: seq<TStat>,
          after: seq<TStat>)
    requires p + 33 <= q <= |d| && OneRead(d[p + 33..q], i, v, now, s)
    requires |before| == |now| == |after| && after[i] == s
    requires forall j :: i <= j < |now| ==> now[j] == before[j]
    requires forall j :: 0 <= j < i ==> now[j] == after[j]
    ensures q == p + 33 + if v > 0 then v else 0
    ensures v > 0 ==> s.DataLen == v == |s.Data| && forall k :: 0 <= k < v ==> s.Data[k] as int == d[p..][33..][k]
    ensures v == 0 ==> s.DataLen == 0 && s.Data == before[i].Data
    ensures v < 0 ==> -v < |after| && SharedRead(i, -v, before, after)
  {
    assert forall k :: 0 <= k < q - p - 33 ==> d[p + 33..q][k] == d[p..][33..][k];
  }

  /** Whatever bytes opening gets through, it reads what they say. */
  lemma BoardIsRead(d: seq<Byte>, slots: seq<TStat>)
    requires OpenBoard(d, slots).Some?
    ensures Read(d, slots, OpenBoard(d, slots).value)
  {
    hide OpenTiles, OpenStats, LoadString, LoadBoardInfo, LoadInt16, TextRead, InfoRead, StatsRead, Word, RunShows,
      Covered;
    var tiles := OpenTiles(d, 51, TRleTile(0, TTile(0, 0)), 0);
    var cells, p := tiles.value.0, tiles.value.1;
    NothingCovered(d);
    var n := CellsAreRead(d, 0, TRleTile(0, TTile(0, 0)), 0, cells);
    var last := LoadInt16(d[p + 86], d[p + 87]);
    TextIsRead(d[..51]);
    InfoIsRead(d[p..p + 86]);
    WordRead(d[p + 86], d[p + 87]);
    ReadSlotsStay(d, p + 88, slots, 0, last);
    StatsAreRead(d, p + 88, slots, 0, last, slots);
    assert p == 51 + 3 * n && CellsRead(d, n, cells);
    assert d[51 + 3 * n..137 + 3 * n] == d[p..p + 86] && d[137 + 3 * n] == d[p + 86];
  }

  lemma NothingCovered(d: seq<Byte>)
    requires 51 <= |d|
    ensures Covered(d, 0) == 0
  {
  }
}
