/** The stat table and tile grid of one board (engine/game.go), updated in place.
    `BoardState` is the value an engine holds; every method is proved to turn the
    old value into the one its specification function gives. */
module BoardSpec {
  import opened GameVars

  datatype BoardState = BoardState(
    tiles: map<Coord, TTile>,
    stats: seq<TStat>,              // every slot of the array, live or stale
    count: int,                     // StatCount: live stats are 0..count
    audience: seq<nat>,             // ScrollAudience: player stat id + 1, 0 for nobody
    players: map<int, PlayerState>, // keyed by stat id
    ticked: int)                    // CurrentStatTicked

  ghost predicate Valid(b: BoardState) {
    && (forall x, y :: InGrid(x, y) <==> (x, y) in b.tiles)
    && |b.stats| == STAT_SLOTS && |b.audience| == STAT_SLOTS
    && -1 <= b.count <= MAX_STAT
    && forall i :: 0 <= i <= b.count ==> InGrid(b.stats[i].X, b.stats[i].Y)
  }

  lemma SameState(a: BoardState, b: BoardState)
    requires a.tiles == b.tiles && a.stats == b.stats && a.count == b.count
    requires a.audience == b.audience && a.players == b.players && a.ticked == b.ticked
    ensures a == b
  {
  }

  /** The first live stat at or after `from` standing on (x, y), or -1. */
  function FirstAt(stats: seq<TStat>, count: int, x: int, y: int, from: nat): (r: int)
    requires count < |stats|
    ensures r == -1 || (from <= r <= count && stats[r].X == x && stats[r].Y == y)
    ensures r == -1 ==> forall i :: from <= i <= count ==> !(stats[i].X == x && stats[i].Y == y)
    ensures forall i :: from <= i < r ==> !(stats[i].X == x && stats[i].Y == y)
    decreases count - from
  {
    if from > count then -1
    else if stats[from].X == x && stats[from].Y == y then from
    else FirstAt(stats, count, x, y, from + 1)
  }

  function StatAt(b: BoardState, x: int, y: int): int
    requires b.count < |b.stats|
  {
    FirstAt(b.stats, b.count, x, y, 0)
  }

  // ---- RemoveStat --------------------------------------------------------

  /** Where a reference to stat `j` points once stat `id` is gone. */
  function Renamed(j: int, id: int): int {
    if j < id then j else if j == id then -1 else j - 1
  }

  function Relinked(s: TStat, id: int): TStat
    requires id >= 0
  {
    s.(Follower := Renamed(s.Follower, id), Leader := Renamed(s.Leader, id))
  }

  function AudienceAfter(a: nat, id: int): nat
    requires id >= 0
  {
    if a == 0 then 0 else if a - 1 == id then 0 else if a - 1 > id then a - 1 else a
  }

  /** The key a player now at key `k` had before stat `id` was removed. */
  function KeyBefore(k: int, id: int): int {
    if k < id then k else k + 1
  }

  function OneLess(keys: set<int>): (r: set<int>)
    ensures forall k {:trigger k in r} :: k in r <==> k + 1 in keys
  {
    var r := set j | j in keys :: j - 1;
    assert forall k {:trigger k in r} :: k + 1 in keys ==> (k + 1) - 1 in r;
    r
  }

  function PlayersAfter(players: map<int, PlayerState>, id: int): (r: map<int, PlayerState>)
    ensures forall k {:trigger k in r} :: k in r <==> KeyBefore(k, id) in players
    ensures forall k {:trigger r[k]} :: k in r ==> r[k] == players[KeyBefore(k, id)]
  {
    map k | k in players.Keys + OneLess(players.Keys) && KeyBefore(k, id) in players :: players[KeyBefore(k, id)]
  }

  lemma PlayersAfterIs(players: map<int, PlayerState>, id: int, r: map<int, PlayerState>)
    requires forall k {:trigger k in r} :: k in r <==> KeyBefore(k, id) in players
    requires forall k {:trigger r[k]} :: k in r ==> r[k] == players[KeyBefore(k, id)]
    ensures r == PlayersAfter(players, id)
  {
    var after := PlayersAfter(players, id);
    assert r.Keys == after.Keys;
  }

  predicate DataShared(stats: seq<TStat>, count: int, id: int)
    requires 0 <= id <= count < |stats|
  {
    exists i :: 1 <= i <= count && i != id && stats[i].Data == stats[id].Data
  }

  /** The stat array with the removed stat's program dropped, when nobody shares it. */
  function Released(stats: seq<TStat>, count: int, id: int): (r: seq<TStat>)
    requires 0 <= id <= count < |stats|
    ensures |r| == |stats|
  {
    if stats[id].DataLen != 0 && !DataShared(stats, count, id)
    then stats[id := stats[id].(Data := "")] else stats
  }

  function LinksRenamed(stats: seq<TStat>, count: int, id: int): (r: seq<TStat>)
    requires 0 <= id <= count < |stats|
    ensures |r| == |stats|
  {
    seq(|stats|, i requires 0 <= i < |stats| => if 1 <= i <= count then Relinked(stats[i], id) else stats[i])
  }

  /** Slots above `id` move down by one; the last live slot is left stale. */
  function ShiftedDown<T>(s: seq<T>, count: int, id: int): (r: seq<T>)
    requires 0 <= id <= count < |s|
    ensures |r| == |s|
  {
    seq(|s|, i requires 0 <= i < |s| => if id <= i < count then s[i + 1] else s[i])
  }

  function StatsWithout(stats: seq<TStat>, count: int, id: int): (r: seq<TStat>)
    requires 0 <= id <= count < |stats|
    ensures |r| == |stats|
  {
    ShiftedDown(LinksRenamed(Released(stats, count, id), count, id), count, id)
  }

  function AudienceRenamed(a: seq<nat>, count: int, id: int): (r: seq<nat>)
    requires 0 <= id <= count < |a|
    ensures |r| == |a|
  {
    seq(|a|, i requires 0 <= i < |a| => if i <= count then AudienceAfter(a[i], id) else a[i])
  }

  function AudienceWithout(a: seq<nat>, count: int, id: int): (r: seq<nat>)
    requires 0 <= id <= count < |a|
    ensures |r| == |a|
  {
    ShiftedDown(AudienceRenamed(a, count, id), count, id)[count := 0]
  }

  ghost function RemoveStat(b: BoardState, id: int): (r: BoardState)
    requires Valid(b) && 0 <= id <= b.count
    ensures Valid(r) && r.count == b.count - 1
  {
    BoardState(
      b.tiles[(b.stats[id].X, b.stats[id].Y) := b.stats[id].Under],
      StatsWithout(b.stats, b.count, id),
      b.count - 1,
      AudienceWithout(b.audience, b.count, id),
      PlayersAfter(b.players, id),
      if id < b.ticked then b.ticked - 1 else b.ticked)
  }

  lemma Removed(r: BoardState, b: BoardState, id: int)
    requires Valid(b) && 0 <= id <= b.count
    requires r.tiles == b.tiles[(b.stats[id].X, b.stats[id].Y) := b.stats[id].Under]
    requires r.stats == StatsWithout(b.stats, b.count, id) && r.count == b.count - 1
    requires r.audience == AudienceWithout(b.audience, b.count, id)
    requires r.players == PlayersAfter(b.players, id)
    requires r.ticked == if id < b.ticked then b.ticked - 1 else b.ticked
    ensures r == RemoveStat(b, id)
  {
  }

  // ---- AddStat and MoveStat ----------------------------------------------

  function LowNibble(c: int): (r: int)   // c & 0x0F
    ensures 0 <= r < 16
  {
    c % 16
  }

  function Background(c: Byte): (r: int) // c & 0x70
    ensures 0 <= r <= 0x70
  {
    c - c % 16 - if c >= 128 then 128 else 0
  }

  function AddedTile(ground: TTile, element: Byte, color: Int16): TTile {
    TTile(element, if PlaceableOnTop(ground.Element) then LowNibble(color) + Background(ground.Color) else color % 256)
  }

  ghost function AddStat(b: BoardState, tx: int, ty: int, element: Byte, color: Int16, cycle: Int16,
          template: TStat): (r: BoardState)
    requires Valid(b) && InGrid(tx, ty)
    ensures Valid(r)
  {
    if b.count >= MAX_STAT then b else
      var tile := b.tiles[(tx, ty)];
      b.(count := b.count + 1,
         stats := b.stats[b.count + 1 := template.(X := tx, Y := ty, Cycle := cycle, Under := tile, DataPos := 0)],
         tiles := b.tiles[(tx, ty) := AddedTile(tile, element, color)])
  }

  /** What the square a stat steps onto shows: the mover, over the ground it covers. */
  function ArrivedTile(mover: TTile, ground: TTile): TTile {
    TTile(mover.Element,
          if mover.Element == E_PLAYER then mover.Color
          else if ground.Element == E_EMPTY then LowNibble(mover.Color)
          else LowNibble(mover.Color) + Background(ground.Color))
  }

  ghost function MoveStat(b: BoardState, id: int, newX: int, newY: int): (r: BoardState)
    requires Valid(b) && 0 <= id <= b.count && InGrid(newX, newY)
    ensures Valid(r)
  {
    var s := b.stats[id];
    var arrived := b.tiles[(newX, newY) := ArrivedTile(b.tiles[(s.X as int, s.Y as int)], b.tiles[(newX, newY)])];
    b.(stats := b.stats[id := s.(Under := b.tiles[(newX, newY)], X := newX, Y := newY)],
       tiles := arrived[(s.X as int, s.Y as int) := s.Under])
  }
}

module Game {
  import opened GameVars
  import opened BoardSpec
  import Serialize

  const IO_TMP_BUF := 20000

  class Engine {
    const Tiles: array2<TTile>
    const Stats: array<TStat>
    const ScrollAudience: array<nat>
    var StatCount: int
    var Players: map<int, PlayerState>
    var CurrentStatTicked: int
    var OopChar: char
    var OopWord: string
    var BoardName: string
    var Info: Serialize.TBoardInfo
    const IoTmpBuf: array<Byte>
    var BoardCount: int
    var CurrentBoard: int
    var BoardData: map<int, seq<Byte>>

    ghost predicate Sized() {
      && Tiles.Length0 == GRID_W && Tiles.Length1 == GRID_H
      && Stats.Length == STAT_SLOTS && ScrollAudience.Length == STAT_SLOTS
    }

    ghost predicate Shaped()
      reads this
    {
      Sized() && -1 <= StatCount <= MAX_STAT
    }

    ghost function Grid(): (g: map<Coord, TTile>)
      requires Sized()
      reads Tiles
    {
      map x: int, y: int | 0 <= x < GRID_W && 0 <= y < GRID_H :: (x, y) := Tiles[x, y]
    }

    ghost function Value(): (b: BoardState)
      requires Sized()
      reads this, Tiles, Stats, ScrollAudience
    {
      BoardState(Grid(), Stats[..], StatCount, ScrollAudience[..], Players, CurrentStatTicked)
    }

    ghost predicate Ok()
      reads this, Tiles, Stats, ScrollAudience
    {
      Shaped() && Valid(Value())
    }

    lemma GridAt(x: int, y: int)
      requires Sized() && InGrid(x, y)
      ensures (x, y) in Grid() && Grid()[(x, y)] == Tiles[x, y]
    {
    }

    method GetStatIdAt(x: int, y: int) returns (r: int)
      requires Ok()
      ensures r == StatAt(Value(), x, y)
    {
      r := 0;
      while !((Stats[r].X == x && Stats[r].Y == y) || r > StatCount)
        invariant 0 <= r <= StatCount + 1
        invariant StatAt(Value(), x, y) == FirstAt(Stats[..], StatCount, x, y, r)
        decreases StatCount + 1 - r
      {
        r := r + 1;
      }
      if r > StatCount { r := -1; }
    }

    method SetTile(x: int, y: int, tile: TTile)
      requires Sized() && InGrid(x, y)
      modifies Tiles
      ensures Value() == old(Value()).(tiles := old(Value()).tiles[(x, y) := tile])
    {
      Tiles[x, y] := tile;
      assert Grid() == old(Grid())[(x, y) := tile];
    }

    method SetStat(id: int, stat: TStat)
      requires Sized() && 0 <= id < STAT_SLOTS
      modifies Stats
      ensures Value() == old(Value()).(stats := old(Value()).stats[id := stat])
    {
      Stats[id] := stat;
      assert Grid() == old(Grid());
      assert Stats[..] == old(Stats[..])[id := stat];
    }

    method AddStat(tx: int, ty: int, element: Byte, color: Int16, cycle: Int16, template: TStat)
      requires Ok() && InGrid(tx, ty)
      modifies this`StatCount, Stats, Tiles
      ensures Ok() && Value() == BoardSpec.AddStat(old(Value()), tx, ty, element, color, cycle, template)
    {
      if StatCount < MAX_STAT {
        ghost var b := Value();
        var tile := Tiles[tx, ty];
        SetStat(StatCount + 1, template.(X := tx, Y := ty, Cycle := cycle, Under := tile, DataPos := 0));
        SetTile(tx, ty, AddedTile(tile, element, color));
        StatCount := StatCount + 1;
        SameState(Value(), BoardSpec.AddStat(b, tx, ty, element, color, cycle, template));
      }
    }

    method MoveStat(id: int, newX: int, newY: int)
      requires Ok() && 0 <= id <= StatCount && InGrid(newX, newY)
      modifies Stats, Tiles
      ensures Ok() && Value() == BoardSpec.MoveStat(old(Value()), id, newX, newY)
    {
      ghost var b := Value();
      var under := Stats[id].Under;
      var oldX, oldY := Stats[id].X, Stats[id].Y;
      var mover, tile := Tiles[oldX, oldY], Tiles[newX, newY];
      SetStat(id, Stats[id].(Under := tile, X := newX, Y := newY));
      SetTile(newX, newY, ArrivedTile(mover, tile));
      SetTile(oldX, oldY, under);
      SameState(Value(), BoardSpec.MoveStat(b, id, newX, newY));
    }

    method RemoveStat(id: int)
      requires Ok() && 0 <= id <= StatCount
      modifies this`StatCount, this`Players, this`CurrentStatTicked, Stats, Tiles, ScrollAudience
      ensures Ok() && Value() == BoardSpec.RemoveStat(old(Value()), id)
    {
      ghost var b := Value();
      ReleaseData(id);
      if id < CurrentStatTicked {
        CurrentStatTicked := CurrentStatTicked - 1;
      }
      SetTile(Stats[id].X, Stats[id].Y, Stats[id].Under);
      RenameLinks(id);
      ReindexScrollAudienceAfterStatRemoval(id);
      ShiftDown(Stats, StatCount, id);
      StatCount := StatCount - 1;
      ReindexPlayersAfterStatRemoval(id);
      assert Stats[..] == StatsWithout(b.stats, b.count, id);
      Removed(Value(), b, id);
    }

    method ReleaseData(id: int)
      requires Shaped() && 0 <= id <= StatCount
      modifies Stats
      ensures Stats[..] == Released(old(Stats[..]), StatCount, id)
    {
      if Stats[id].DataLen != 0 {
        var i := 1;
        while i <= StatCount
          invariant 1 <= i
          invariant forall k :: 1 <= k < i && k <= StatCount && k != id ==> Stats[k].Data != Stats[id].Data
        {
          if Stats[i].Data == Stats[id].Data && i != id {
            return;
          }
          i := i + 1;
        }
        Stats[id] := Stats[id].(Data := "");
      }
    }

    method RenameLinks(id: int)
      requires Shaped() && 0 <= id <= StatCount
      modifies Stats
      ensures Stats[..] == LinksRenamed(old(Stats[..]), StatCount, id)
    {
      var i := 1;
      while i <= StatCount
        invariant 1 <= i && (StatCount >= 0 ==> i <= StatCount + 1)
        invariant forall k :: 0 <= k < Stats.Length ==>
          Stats[k] == if 1 <= k < i then Relinked(old(Stats[k]), id) else old(Stats[k])
      {
        if Stats[i].Follower >= id {
          if Stats[i].Follower == id {
            Stats[i] := Stats[i].(Follower := -1);
          } else {
            Stats[i] := Stats[i].(Follower := Stats[i].Follower - 1);
          }
        }
        if Stats[i].Leader >= id {
          if Stats[i].Leader == id {
            Stats[i] := Stats[i].(Leader := -1);
          } else {
            Stats[i] := Stats[i].(Leader := Stats[i].Leader - 1);
          }
        }
        i := i + 1;
      }
    }

    method ReindexScrollAudienceAfterStatRemoval(id: int)
      requires Shaped() && 0 <= id <= StatCount
      modifies ScrollAudience
      ensures ScrollAudience[..] == AudienceWithout(old(ScrollAudience[..]), StatCount, id)
    {
      var i := 0;
      while i <= StatCount
        invariant 0 <= i <= StatCount + 1
        invariant forall k :: 0 <= k < ScrollAudience.Length ==>
          ScrollAudience[k] == if k < i then AudienceAfter(old(ScrollAudience[k]), id) else old(ScrollAudience[k])
      {
        if ScrollAudience[i] != 0 {
          var audience := ScrollAudience[i] - 1;
          if audience == id {
            ScrollAudience[i] := 0;
          } else if audience > id {
            ScrollAudience[i] := audience;
          }
        }
        i := i + 1;
      }
      assert ScrollAudience[..] == AudienceRenamed(old(ScrollAudience[..]), StatCount, id);
      ShiftDown(ScrollAudience, StatCount, id);
      ScrollAudience[StatCount] := 0;
    }

    static method ShiftDown<T>(a: array<T>, count: int, id: int)
      requires 0 <= id <= count < a.Length
      modifies a
      ensures a[..] == ShiftedDown(old(a[..]), count, id)
    {
      var i := id + 1;
      while i <= count
        invariant id + 1 <= i <= count + 1
        invariant forall k :: 0 <= k < a.Length ==> a[k] == if id <= k < i - 1 then old(a[k + 1]) else old(a[k])
      {
        a[i - 1] := a[i];
        i := i + 1;
      }
    }

    method ReindexPlayersAfterStatRemoval(id: int)
      modifies this`Players
      ensures Players == PlayersAfter(old(Players), id)
    {
      if |Players| == 0 {
        assert Players == map[];
        PlayersAfterIs(Players, id, Players);
        return;
      }
      var players: map<int, PlayerState> := map[];
      var left := Players.Keys;
      while left != {}
        invariant Players == old(Players) && left <= Players.Keys
        invariant forall k {:trigger k in players} ::
          k in players <==> KeyBefore(k, id) in Players && KeyBefore(k, id) !in left
        invariant forall k {:trigger players[k]} :: k in players ==> players[k] == Players[KeyBefore(k, id)]
        decreases |left|
      {
        var key := AnyKey(left);
        if key < id {
          players := players[key := Players[key]];
        } else if key > id {
          players := players[key - 1 := Players[key]];
        }
        left := left - {key};
      }
      PlayersAfterIs(Players, id, players);
      Players := players;
    }
  }
}
