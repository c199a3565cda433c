/** The fixed-width records of the file format (engine/serialize.go): writers that
    fill a buffer in place, and the values the loaders read back. */
module Serialize {
  import opened GameVars

  const SizeOfBoardName := 51
  const SizeOfRleTile := 3
  const SizeOfBoardInfo := 86
  const SizeOfBoardInfoMessage := 59
  const SizeOfStat := 33

  datatype TRleTile = TRleTile(Count: Byte, Tile: TTile)

  datatype TBoardInfo = TBoardInfo(
    MaxShots: Byte, IsDark: bool, NeighborBoards: seq<Byte>, ReenterWhenZapped: bool,
    Message: string, StartPlayerX: Byte, StartPlayerY: Byte, TimeLimitSec: Int16)

  // ---- Strings of bytes --------------------------------------------------

  ghost predicate ByteString(s: string) {
    forall i :: 0 <= i < |s| ==> s[i] as int < 256
  }

  function ByteOf(c: char): Byte {
    c as int % 256
  }

  function Bytes(s: string): (r: seq<Byte>)
    ensures |r| == |s|
  {
    seq(|s|, i requires 0 <= i < |s| => ByteOf(s[i]))
  }

  function Chars(b: seq<Byte>): (r: string)
    ensures |r| == |b| && ByteString(r)
  {
    seq(|b|, i requires 0 <= i < |b| => b[i] as char)
  }

  lemma CharsOfBytes(s: string)
    requires ByteString(s)
    ensures Chars(Bytes(s)) == s
  {
  }

  function Zeros(n: nat): (r: seq<Byte>)
    ensures |r| == n
  {
    seq(n, _ => 0)
  }

  /** A Pascal string: its length, its bytes cut to fit, and zeros up to `size`. */
  function EncString(s: string, size: nat): (r: seq<Byte>)
    requires 1 <= size <= 256
    ensures |r| == size
  {
    var t := if |s| > size - 1 then s[..size - 1] else s;
    [|t|] + Bytes(t) + Zeros(size - 1 - |t|)
  }

  function LoadString(src: seq<Byte>): string
    requires |src| >= 1
  {
    var length := if src[0] > |src| - 1 then |src| - 1 else src[0];
    Chars(src[1..1 + length])
  }

  lemma StringRoundTrip(s: string, size: nat)
    requires 1 <= size <= 256 && ByteString(s)
    ensures LoadString(EncString(s, size)) == if |s| > size - 1 then s[..size - 1] else s
  {
    var t := if |s| > size - 1 then s[..size - 1] else s;
    assert EncString(s, size)[1..1 + |t|] == Bytes(t);
    CharsOfBytes(t);
  }

  // ---- 16-bit integers ---------------------------------------------------

  function Unsigned(n: Int16): nat { if n < 0 then n + 0x10000 else n }
  function Lo(n: Int16): Byte { Unsigned(n) % 256 }
  function Hi(n: Int16): Byte { Unsigned(n) / 256 }

  function LoadInt16(lo: Byte, hi: Byte): Int16 {
    var u := lo + 256 * hi;
    if u >= 0x8000 then u - 0x10000 else u
  }

  lemma Int16RoundTrip(n: Int16)
    ensures LoadInt16(Lo(n), Hi(n)) == n
  {
  }

  function BoolByte(b: bool): Byte { if b then 1 else 0 }

  // ---- Records -----------------------------------------------------------

  function EncRleTile(rle: TRleTile): seq<Byte> {
    [rle.Count, rle.Tile.Element, rle.Tile.Color]
  }

  function LoadRleTile(src: seq<Byte>): TRleTile
    requires |src| == SizeOfRleTile
  {
    TRleTile(src[0], TTile(src[1], src[2]))
  }

  /** Place, steps, cycle and parameters. */
  function EncStatHead(s: TStat): (r: seq<Byte>)
    ensures |r| == 11
  {
    [s.X, s.Y, Lo(s.StepX), Hi(s.StepX), Lo(s.StepY), Hi(s.StepY), Lo(s.Cycle), Hi(s.Cycle), s.P1, s.P2, s.P3]
  }

  /** Links, ground, and four bytes of padding. */
  function EncStatLinks(s: TStat): (r: seq<Byte>)
    ensures |r| == 10
  {
    [Lo(s.Follower), Hi(s.Follower), Lo(s.Leader), Hi(s.Leader), s.Under.Element, s.Under.Color, 0, 0, 0, 0]
  }

  /** The program's position and length, and eight bytes of padding. */
  function EncStatProgram(s: TStat): (r: seq<Byte>)
    ensures |r| == 12
  {
    [Lo(s.DataPos), Hi(s.DataPos), Lo(s.DataLen), Hi(s.DataLen), 0, 0, 0, 0, 0, 0, 0, 0]
  }

  function EncStat(s: TStat): (r: seq<Byte>)
    ensures |r| == SizeOfStat
  {
    EncStatHead(s) + EncStatLinks(s) + EncStatProgram(s)
  }

  /** LoadStat fills every field but the program. */
  function LoadStat(src: seq<Byte>, into: TStat): TStat
    requires |src| == SizeOfStat
  {
    TStat(src[0], src[1], LoadInt16(src[2], src[3]), LoadInt16(src[4], src[5]), LoadInt16(src[6], src[7]),
          src[8], src[9], src[10], LoadInt16(src[11], src[12]), LoadInt16(src[13], src[14]),
          TTile(src[15], src[16]), into.Data, LoadInt16(src[21], src[22]), LoadInt16(src[23], src[24]))
  }

  lemma StatRoundTrip(s: TStat, into: TStat)
    ensures LoadStat(EncStat(s), into) == s.(Data := into.Data)
  {
    hide Lo, Hi, LoadInt16;
    Int16RoundTrip(s.StepX);
    Int16RoundTrip(s.StepY);
    Int16RoundTrip(s.Cycle);
    Int16RoundTrip(s.Follower);
    Int16RoundTrip(s.Leader);
    Int16RoundTrip(s.DataPos);
    Int16RoundTrip(s.DataLen);
  }

  function EncStartAndLimit(i: TBoardInfo): (r: seq<Byte>)
    ensures |r| == 20
  {
    [i.StartPlayerX, i.StartPlayerY, Lo(i.TimeLimitSec), Hi(i.TimeLimitSec)] + Zeros(16)
  }

  function EncBoardInfo(i: TBoardInfo): (r: seq<Byte>)
    requires |i.NeighborBoards| == 4
    ensures |r| == SizeOfBoardInfo
  {
    [i.MaxShots, BoolByte(i.IsDark)] + i.NeighborBoards + [BoolByte(i.ReenterWhenZapped)]
      + EncString(i.Message, SizeOfBoardInfoMessage) + EncStartAndLimit(i)
  }

  function LoadBoardInfo(src: seq<Byte>): TBoardInfo
    requires |src| == SizeOfBoardInfo
  {
    TBoardInfo(src[0], src[1] != 0, src[2..6], src[6] != 0, LoadString(src[7..66]), src[66], src[67],
        LoadInt16(src[68], src[69]))
  }

  lemma BoardInfoRoundTrip(i: TBoardInfo)
    requires |i.NeighborBoards| == 4 && ByteString(i.Message) && |i.Message| < SizeOfBoardInfoMessage
    ensures LoadBoardInfo(EncBoardInfo(i)) == i
  {
    var e := EncBoardInfo(i);
    assert e[2..6] == i.NeighborBoards;
    assert e[7..66] == EncString(i.Message, SizeOfBoardInfoMessage);
    StringRoundTrip(i.Message, SizeOfBoardInfoMessage);
    Int16RoundTrip(i.TimeLimitSec);
  }

  // ---- The writers -------------------------------------------------------

  /** A buffer with `bytes` written over it from `at` on. */
  function Written(buf: seq<Byte>, at: nat, bytes: seq<Byte>): (r: seq<Byte>)
    requires at + |bytes| <= |buf|
    ensures |r| == |buf| && r[..at] == buf[..at] && r[at..at + |bytes|] == bytes
      && r[at + |bytes|..] == buf[at + |bytes|..]
  {
    buf[..at] + bytes + buf[at + |bytes|..]
  }

  lemma WrittenTwice(buf: seq<Byte>, at: nat, first: seq<Byte>, second: seq<Byte>)
    requires at + |first| + |second| <= |buf|
    ensures Written(Written(buf, at, first), at + |first|, second) == Written(buf, at, first + second)
  {
  }

  method CopyBytes(dest: array<Byte>, at: nat, bytes: seq<Byte>)
    requires at + |bytes| <= dest.Length
    modifies dest
    ensures dest[..] == Written(old(dest[..]), at, bytes)
  {
    for i := 0 to |bytes|
      invariant dest[..] == Written(old(dest[..]), at, bytes[..i])
    {
      dest[at + i] := bytes[i];
    }
    assert bytes[..|bytes|] == bytes;
  }

  method StoreString(dest: array<Byte>, at: nat, size: nat, s: string)
    requires 1 <= size <= 256 && at + size <= dest.Length
    modifies dest
    ensures dest[..] == Written(old(dest[..]), at, EncString(s, size))
  {
    var src := s;
    if |src| > size - 1 {
      src := src[..size - 1];
    }
    CopyBytes(dest, at, [|src|]);
    CopyBytes(dest, at + 1, Bytes(src));
    WrittenTwice(old(dest[..]), at, [|src|], Bytes(src));
    ZeroFill(dest, at + 1 + |src|, at + size);
    WrittenTwice(old(dest[..]), at, [|src|] + Bytes(src), Zeros(size - 1 - |src|));
  }

  method ZeroFill(dest: array<Byte>, from: nat, to: nat)
    requires from <= to <= dest.Length
    modifies dest
    ensures dest[..] == Written(old(dest[..]), from, Zeros(to - from))
  {
    for i := from to to
      invariant dest[..] == Written(old(dest[..]), from, Zeros(i - from))
    {
      dest[i] := 0;
    }
  }

  method StoreInt16(dest: array<Byte>, at: nat, n: Int16)
    requires at + 2 <= dest.Length
    modifies dest
    ensures dest[..] == Written(old(dest[..]), at, [Lo(n), Hi(n)])
  {
    dest[at] := Lo(n);
    dest[at + 1] := Hi(n);
  }

  method StoreRleTile(dest: array<Byte>, at: nat, rle: TRleTile)
    requires at + SizeOfRleTile <= dest.Length
    modifies dest
    ensures dest[..] == Written(old(dest[..]), at, EncRleTile(rle))
  {
    dest[at] := rle.Count;
    dest[at + 1] := rle.Tile.Element;
    dest[at + 2] := rle.Tile.Color;
  }

  method StoreStatHead(dest: array<Byte>, at: nat, stat: TStat)
    requires at + 11 <= dest.Length
    modifies dest
    ensures dest[..] == Written(old(dest[..]), at, EncStatHead(stat))
  {
    hide Written, Lo, Hi, EncString;
    ghost var b, done: seq<Byte> := dest[..], [];
    CopyBytes(dest, at, [stat.X, stat.Y]);
    WrittenTwice(b, at, done, [stat.X, stat.Y]);
    done := done + [stat.X, stat.Y];
    StoreInt16(dest, at + 2, stat.StepX);
    WrittenTwice(b, at, done, [Lo(stat.StepX), Hi(stat.StepX)]);
    done := done + [Lo(stat.StepX), Hi(stat.StepX)];
    StoreInt16(dest, at + 4, stat.StepY);
    WrittenTwice(b, at, done, [Lo(stat.StepY), Hi(stat.StepY)]);
    done := done + [Lo(stat.StepY), Hi(stat.StepY)];
    StoreInt16(dest, at + 6, stat.Cycle);
    WrittenTwice(b, at, done, [Lo(stat.Cycle), Hi(stat.Cycle)]);
    done := done + [Lo(stat.Cycle), Hi(stat.Cycle)];
    CopyBytes(dest, at + 8, [stat.P1, stat.P2, stat.P3]);
    WrittenTwice(b, at, done, [stat.P1, stat.P2, stat.P3]);
    done := done + [stat.P1, stat.P2, stat.P3];
    assert done == EncStatHead(stat);
  }

  method StoreStatLinks(dest: array<Byte>, at: nat, stat: TStat)
    requires at + 10 <= dest.Length
    modifies dest
    ensures dest[..] == Written(old(dest[..]), at, EncStatLinks(stat))
  {
    hide Written, Lo, Hi, EncString;
    ghost var b, done: seq<Byte> := dest[..], [];
    StoreInt16(dest, at, stat.Follower);
    WrittenTwice(b, at, done, [Lo(stat.Follower), Hi(stat.Follower)]);
    done := done + [Lo(stat.Follower), Hi(stat.Follower)];
    StoreInt16(dest, at + 2, stat.Leader);
    WrittenTwice(b, at, done, [Lo(stat.Leader), Hi(stat.Leader)]);
    done := done + [Lo(stat.Leader), Hi(stat.Leader)];
    CopyBytes(dest, at + 4, [stat.Under.Element, stat.Under.Color, 0, 0, 0, 0]);
    WrittenTwice(b, at, done, [stat.Under.Element, stat.Under.Color, 0, 0, 0, 0]);
    done := done + [stat.Under.Element, stat.Under.Color, 0, 0, 0, 0];
    assert done == EncStatLinks(stat);
  }

  method StoreStatProgram(dest: array<Byte>, at: nat, stat: TStat)
    requires at + 12 <= dest.Length
    modifies dest
    ensures dest[..] == Written(old(dest[..]), at, EncStatProgram(stat))
  {
    hide Written, Lo, Hi, EncString;
    ghost var b, done: seq<Byte> := dest[..], [];
    StoreInt16(dest, at, stat.DataPos);
    WrittenTwice(b, at, done, [Lo(stat.DataPos), Hi(stat.DataPos)]);
    done := done + [Lo(stat.DataPos), Hi(stat.DataPos)];
    StoreInt16(dest, at + 2, stat.DataLen);
    WrittenTwice(b, at, done, [Lo(stat.DataLen), Hi(stat.DataLen)]);
    done := done + [Lo(stat.DataLen), Hi(stat.DataLen)];
    ZeroFill(dest, at + 4, at + 12);
    WrittenTwice(b, at, done, Zeros(8));
    done := done + Zeros(8);
    assert done == EncStatProgram(stat);
  }

  method StoreStat(dest: array<Byte>, at: nat, stat: TStat)
    requires at + SizeOfStat <= dest.Length
    modifies dest
    ensures dest[..] == Written(old(dest[..]), at, EncStat(stat))
  {
    StoreStatHead(dest, at, stat);
    StoreStatLinks(dest, at + 11, stat);
    WrittenTwice(old(dest[..]), at, EncStatHead(stat), EncStatLinks(stat));
    StoreStatProgram(dest, at + 21, stat);
    WrittenTwice(old(dest[..]), at, EncStatHead(stat) + EncStatLinks(stat), EncStatProgram(stat));
  }

  method StoreStartAndLimit(dest: array<Byte>, at: nat, info: TBoardInfo)
    requires at + 20 <= dest.Length
    modifies dest
    ensures dest[..] == Written(old(dest[..]), at, EncStartAndLimit(info))
  {
    hide Written, Lo, Hi, EncString;
    ghost var b, done: seq<Byte> := dest[..], [];
    CopyBytes(dest, at, [info.StartPlayerX, info.StartPlayerY]);
    WrittenTwice(b, at, done, [info.StartPlayerX, info.StartPlayerY]);
    done := done + [info.StartPlayerX, info.StartPlayerY];
    StoreInt16(dest, at + 2, info.TimeLimitSec);
    WrittenTwice(b, at, done, [Lo(info.TimeLimitSec), Hi(info.TimeLimitSec)]);
    done := done + [Lo(info.TimeLimitSec), Hi(info.TimeLimitSec)];
    ZeroFill(dest, at + 4, at + 20);
    WrittenTwice(b, at, done, Zeros(16));
    done := done + Zeros(16);
    assert done == EncStartAndLimit(info);
  }

  method StoreBoardInfo(dest: array<Byte>, at: nat, info: TBoardInfo)
    requires |info.NeighborBoards| == 4 && at + SizeOfBoardInfo <= dest.Length
    modifies dest
    ensures dest[..] == Written(old(dest[..]), at, EncBoardInfo(info))
  {
    hide Written, Lo, Hi, EncString;
    ghost var b, done: seq<Byte> := dest[..], [];
    CopyBytes(dest, at, [info.MaxShots, BoolByte(info.IsDark)]);
    WrittenTwice(b, at, done, [info.MaxShots, BoolByte(info.IsDark)]);
    done := done + [info.MaxShots, BoolByte(info.IsDark)];
    CopyBytes(dest, at + 2, info.NeighborBoards);
    WrittenTwice(b, at, done, info.NeighborBoards);
    done := done + info.NeighborBoards;
    CopyBytes(dest, at + 6, [BoolByte(info.ReenterWhenZapped)]);
    WrittenTwice(b, at, done, [BoolByte(info.ReenterWhenZapped)]);
    done := done + [BoolByte(info.ReenterWhenZapped)];
    StoreString(dest, at + 7, SizeOfBoardInfoMessage, info.Message);
    WrittenTwice(b, at, done, EncString(info.Message, SizeOfBoardInfoMessage));
    done := done + EncString(info.Message, SizeOfBoardInfoMessage);
    StoreStartAndLimit(dest, at + 66, info);
    WrittenTwice(b, at, done, EncStartAndLimit(info));
    done := done + EncStartAndLimit(info);
    assert done == EncBoardInfo(info);
  }
}
