/** What RemoveStat, AddStat and MoveStat keep (engine/game.go). */
module StatTable {
  import opened GameVars
  import opened BoardSpec

  // ---- RemoveStat is one renaming ----------------------------------------

  /** The stat an index means, when `who[i]` is the identity of the stat in slot i. */
  function Named<T>(who: seq<T>, index: int): Option<T> {
    if 0 <= index < |who| then Some(who[index]) else None
  }

  function Without<T>(who: seq<T>, id: int): seq<T>
    requires 0 <= id < |who|
  {
    who[..id] + who[id + 1..]
  }

  function UnlessRemoved<T>(index: int, id: int, meaning: Option<T>): Option<T> {
    if index == id then None else meaning
  }

  /** Everything but the links: place, step, parameters and program. */
  predicate SameStat(s: TStat, t: TStat) {
    s == t.(Follower := s.Follower, Leader := s.Leader)
  }

  lemma RenamedMeansTheSame<T>(who: seq<T>, id: int, index: int)
    requires 0 <= id < |who|
    ensures Named(Without(who, id), Renamed(index, id)) == UnlessRemoved(index, id, Named(who, index))
  {
  }

  /** Where a survivor's record ends up; stat 0's links are never renamed. */
  lemma SurvivorSlot(b: BoardState, id: int, j: int)
    requires Valid(b) && 0 <= id <= b.count && 0 <= j <= b.count && j != id
    ensures RemoveStat(b, id).stats[Renamed(j, id)] == if j == 0 then b.stats[0] else Relinked(b.stats[j], id)
    ensures RemoveStat(b, id).audience[Renamed(j, id)] == AudienceAfter(b.audience[j], id)
  {
  }

  lemma RestOfRemoval(b: BoardState, id: int)
    requires Valid(b) && 0 <= id <= b.count
    ensures var r := RemoveStat(b, id);
      && r.tiles == b.tiles[(b.stats[id].X, b.stats[id].Y) := b.stats[id].Under]
      && r.players == PlayersAfter(b.players, id)
      && r.ticked == (if id < b.ticked then b.ticked - 1 else b.ticked)
      && r.audience == AudienceWithout(b.audience, b.count, id) && r.audience[b.count] == 0
  {
  }

  lemma RemoveStatRenamesStats<T>(b: BoardState, id: int, who: seq<T>)
    requires Valid(b) && 0 <= id <= b.count && |who| == b.count + 1
    ensures var r, after := RemoveStat(b, id), Without(who, id);
      && |after| == r.count + 1
      && forall j :: 0 <= j <= b.count && j != id ==>
        && after[Renamed(j, id)] == who[j]
        && SameStat(r.stats[Renamed(j, id)], b.stats[j])
        && (j > 0 ==>
              Named(after, r.stats[Renamed(j, id)].Follower) ==
              UnlessRemoved(b.stats[j].Follower as int, id, Named(who, b.stats[j].Follower)))
        && (j > 0 ==>
              Named(after, r.stats[Renamed(j, id)].Leader) ==
              UnlessRemoved(b.stats[j].Leader as int, id, Named(who, b.stats[j].Leader)))
  {
    var r, after := RemoveStat(b, id), Without(who, id);
    forall j | 0 <= j <= b.count && j != id
      ensures after[Renamed(j, id)] == who[j]
      ensures SameStat(r.stats[Renamed(j, id)], b.stats[j])
      ensures j > 0 ==>
        Named(after, r.stats[Renamed(j, id)].Follower) ==
        UnlessRemoved(b.stats[j].Follower as int, id, Named(who, b.stats[j].Follower))
      ensures j > 0 ==>
        Named(after, r.stats[Renamed(j, id)].Leader) ==
        UnlessRemoved(b.stats[j].Leader as int, id, Named(who, b.stats[j].Leader))
    {
      SurvivorSlot(b, id, j);
      RenamedMeansTheSame(who, id, b.stats[j].Follower);
      RenamedMeansTheSame(who, id, b.stats[j].Leader);
    }
  }

  /** The scroll audience is renamed in its keys and in its values. */
  lemma RemoveStatRenamesAudience<T>(b: BoardState, id: int, who: seq<T>, j: int)
    requires Valid(b) && 0 <= id <= b.count && |who| == b.count + 1 && 0 <= j <= b.count && j != id
    ensures var r := RemoveStat(b, id);
      && Named(Without(who, id), r.audience[Renamed(j, id)] as int - 1)
         == UnlessRemoved(b.audience[j] as int - 1, id, Named(who, b.audience[j] as int - 1))
      && r.audience[b.count] == 0
  {
    hide RemoveStat;
    RestOfRemoval(b, id);
    SurvivorSlot(b, id, j);
  }

  lemma RemoveStatRenamesPlayers(b: BoardState, id: int, j: int)
    requires Valid(b) && 0 <= id <= b.count && j != id
    ensures var r := RemoveStat(b, id);
      && (Renamed(j, id) in r.players <==> j in b.players)
      && (j in b.players ==> r.players[Renamed(j, id)] == b.players[j])
  {
    hide RemoveStat;
    RestOfRemoval(b, id);
    assert KeyBefore(Renamed(j, id), id) == j;
  }

  /** The scheduler's cursor still means the stat it meant, unless that is the
      stat removed: then it means the one after. */
  lemma RemoveStatRenamesCursor<T>(b: BoardState, id: int, who: seq<T>)
    requires Valid(b) && 0 <= id <= b.count && |who| == b.count + 1
    ensures Named(Without(who, id), RemoveStat(b, id).ticked)
         == Named(who, if b.ticked == id then b.ticked + 1 else b.ticked)
  {
    hide RemoveStat;
    RestOfRemoval(b, id);
  }

  /** The link loop starts at 1, so stat 0's own links keep their numbers: its
      follower still means the same stat exactly when that number did not move. */
  lemma StatZeroLinkMeansTheSame<T>(b: BoardState, id: int, who: seq<T>)
    requires Valid(b) && 0 < id <= b.count && |who| == b.count + 1
    requires forall i, j :: 0 <= i < j < |who| ==> who[i] != who[j]
    ensures var f := b.stats[0].Follower;
      Named(Without(who, id), RemoveStat(b, id).stats[0].Follower) == UnlessRemoved(f as int, id, Named(who, f))
      <==> f < id || f > b.count || (f == id == b.count)
  {
    SurvivorSlot(b, id, 0);
    var f, after := b.stats[0].Follower, Without(who, id);
    if id <= f < b.count {
      assert after[f] == who[f + 1];
    }
  }

  /** Removals commute: two stats may be removed in either order, each under its name of the moment. */
  lemma RemovalsCommute(b: BoardState, i: int, j: int)
    requires Valid(b) && 1 <= i <= b.count && 1 <= j <= b.count && i != j
    ensures var ij := RemoveStat(RemoveStat(b, i), Renamed(j, i));
            var ji := RemoveStat(RemoveStat(b, j), Renamed(i, j));
      && ij.count == ji.count == b.count - 2
      && ij.stats[..ij.count + 1] == ji.stats[..ji.count + 1]
      && ij.audience == ji.audience && ij.players == ji.players
      && (b.ticked != i && b.ticked != j ==> ij.ticked == ji.ticked)
      && ((b.stats[i].X, b.stats[i].Y) != (b.stats[j].X, b.stats[j].Y) ==> ij.tiles == ji.tiles)
  {
    hide RemoveStat, AudienceWithout, PlayersAfter;
    var bi, bj := RemoveStat(b, i), RemoveStat(b, j);
    forall k | 0 <= k <= b.count - 2
      ensures RemoveStat(bi, Renamed(j, i)).stats[k] == RemoveStat(bj, Renamed(i, j)).stats[k]
    {
      StatsCommute(b, i, j, k);
    }
    if (b.stats[i].X, b.stats[i].Y) != (b.stats[j].X, b.stats[j].Y) {
      TilesCommute(b, i, j);
    }
    RestCommutes(b, i, j);
  }

  lemma RestCommutes(b: BoardState, i: int, j: int)
    requires Valid(b) && 1 <= i <= b.count && 1 <= j <= b.count && i != j
    ensures var ij := RemoveStat(RemoveStat(b, i), Renamed(j, i));
            var ji := RemoveStat(RemoveStat(b, j), Renamed(i, j));
      && ij.audience == ji.audience && ij.players == ji.players
      && (b.ticked != i && b.ticked != j ==> ij.ticked == ji.ticked)
  {
    hide RemoveStat, AudienceWithout, PlayersAfter;
    RestOfRemoval(b, i);
    RestOfRemoval(b, j);
    RestOfRemoval(RemoveStat(b, i), Renamed(j, i));
    RestOfRemoval(RemoveStat(b, j), Renamed(i, j));
    TwiceWithoutAudience(b, i, j);
    TwiceWithoutPlayers(b.players, i, j);
  }

  lemma StatsCommute(b: BoardState, i: int, j: int, k: int)
    requires Valid(b) && 1 <= i <= b.count && 1 <= j <= b.count && i != j && 0 <= k <= b.count - 2
    ensures RemoveStat(RemoveStat(b, i), Renamed(j, i)).stats[k] == RemoveStat(RemoveStat(b, j), Renamed(i, j)).stats[k]
  {
    hide RemoveStat;
    var o := Origin(k, i, j);
    TwiceRenamed(o, i, j);
    SurvivorSlot(b, i, o);
    SurvivorSlot(b, j, o);
    SurvivorSlot(RemoveStat(b, i), Renamed(j, i), Renamed(o, i));
    SurvivorSlot(RemoveStat(b, j), Renamed(i, j), Renamed(o, j));
    TwiceRenamed(b.stats[o].Follower, i, j);
    TwiceRenamed(b.stats[o].Leader, i, j);
  }

  lemma TilesCommute(b: BoardState, i: int, j: int)
    requires Valid(b) && 1 <= i <= b.count && 1 <= j <= b.count && i != j
    requires (b.stats[i].X, b.stats[i].Y) != (b.stats[j].X, b.stats[j].Y)
    ensures RemoveStat(RemoveStat(b, i), Renamed(j, i)).tiles == RemoveStat(RemoveStat(b, j), Renamed(i, j)).tiles
  {
    hide RemoveStat;
    SurvivorSlot(b, i, j);
    SurvivorSlot(b, j, i);
    RestOfRemoval(b, i);
    RestOfRemoval(b, j);
    RestOfRemoval(RemoveStat(b, i), Renamed(j, i));
    RestOfRemoval(RemoveStat(b, j), Renamed(i, j));
  }

  /** The slot that ends up in slot k after i and j are gone. */
  function Origin(k: int, i: int, j: int): int {
    var lo, hi := if i < j then i else j, if i < j then j else i;
    if k < lo then k else if k + 1 < hi then k + 1 else k + 2
  }

  lemma TwiceRenamed(o: int, i: int, j: int)
    requires 0 <= i && 0 <= j && i != j
    ensures Renamed(Renamed(o, i), Renamed(j, i)) == Renamed(Renamed(o, j), Renamed(i, j))
  {
  }

  lemma AudienceWithoutAt(a: seq<nat>, count: int, id: int, k: int)
    requires 0 <= id <= count < |a| && 0 <= k < |a|
    ensures AudienceWithout(a, count, id)[k] ==
      if k < count then AudienceAfter(a[KeyBefore(k, id)], id) else if k == count then 0 else a[k]
  {
  }

  lemma TwiceWithoutAudience(b: BoardState, i: int, j: int)
    requires Valid(b) && 1 <= i <= b.count && 1 <= j <= b.count && i != j
    ensures AudienceWithout(AudienceWithout(b.audience, b.count, i), b.count - 1, Renamed(j, i))
         == AudienceWithout(AudienceWithout(b.audience, b.count, j), b.count - 1, Renamed(i, j))
  {
    var l := AudienceWithout(AudienceWithout(b.audience, b.count, i), b.count - 1, Renamed(j, i));
    var r := AudienceWithout(AudienceWithout(b.audience, b.count, j), b.count - 1, Renamed(i, j));
    hide AudienceWithout;
    forall k | 0 <= k < |l|
      ensures l[k] == r[k]
    {
      TwiceWithoutAudienceAt(b.audience, b.count, i, j, k);
    }
  }

  lemma TwiceWithoutAudienceAt(a: seq<nat>, count: int, i: int, j: int, k: int)
    requires 1 <= i <= count < |a| && 1 <= j <= count && i != j && 0 <= k < |a|
    ensures AudienceWithout(AudienceWithout(a, count, i), count - 1, Renamed(j, i))[k]
         == AudienceWithout(AudienceWithout(a, count, j), count - 1, Renamed(i, j))[k]
  {
    hide AudienceWithout;
    AudienceWithoutAt(AudienceWithout(a, count, i), count - 1, Renamed(j, i), k);
    AudienceWithoutAt(AudienceWithout(a, count, j), count - 1, Renamed(i, j), k);
    AudienceWithoutAt(a, count, i, if k < count - 1 then KeyBefore(k, Renamed(j, i)) else k);
    AudienceWithoutAt(a, count, j, if k < count - 1 then KeyBefore(k, Renamed(i, j)) else k);
  }

  lemma TwiceWithoutPlayers(players: map<int, PlayerState>, i: int, j: int)
    requires 1 <= i && 1 <= j && i != j
    ensures PlayersAfter(PlayersAfter(players, i), Renamed(j, i)) ==
      PlayersAfter(PlayersAfter(players, j), Renamed(i, j))
  {
    hide PlayersAfter;
    var a := PlayersAfter(PlayersAfter(players, i), Renamed(j, i));
    var c := PlayersAfter(PlayersAfter(players, j), Renamed(i, j));
    forall k
      ensures k in a <==> k in c
      ensures k in a ==> a[k] == c[k]
    {
      PlayerTwiceRenamed(players, i, Renamed(j, i), k);
      PlayerTwiceRenamed(players, j, Renamed(i, j), k);
    }
    SameMap(a, c);
  }

  lemma PlayerTwiceRenamed(players: map<int, PlayerState>, i: int, j: int, k: int)
    ensures var r := PlayersAfter(PlayersAfter(players, i), j);
      && (k in r <==> KeyBefore(KeyBefore(k, j), i) in players)
      && (k in r ==> r[k] == players[KeyBefore(KeyBefore(k, j), i)])
  {
  }

  lemma SameMap<K, V>(a: map<K, V>, c: map<K, V>)
    requires forall k {:trigger k in a} :: k in a <==> k in c
    requires forall k {:trigger a[k]} :: k in a ==> a[k] == c[k]
    ensures a == c
  {
    assert a.Keys == c.Keys;
  }

  // ---- Squares, colours and slots ----------------------------------------

  /** The foreground of one colour over the background of another, without the blink bit. */
  predicate Mixed(color: Byte, front: int, back: Byte) {
    color % 16 == front % 16 && color / 16 == back / 16 % 8
  }

  /** An addition fills the slot behind the last live one and shows on its square; on
      water and fakes (19, 27) through the background there. A full table takes nothing. */
  lemma AddedStands(b: BoardState, tx: int, ty: int, element: Byte, color: Int16, cycle: Int16, template: TStat)
    requires Valid(b) && InGrid(tx, ty)
    ensures var r := AddStat(b, tx, ty, element, color, cycle, template); var was := b.tiles[(tx, ty)];
      if b.count >= 150 then r == b
      else
        && r.count == b.count + 1 && r.stats[..r.count] == b.stats[..r.count]
        && (r.stats[r.count].X, r.stats[r.count].Y) == (tx, ty) && r.stats[r.count].Under == was
        && r.stats[r.count].Cycle == cycle && r.stats[r.count].DataPos == 0
        && r.stats[r.count] == template.(X := tx, Y := ty, Under := was, Cycle := cycle, DataPos := 0)
        && r.tiles - {(tx, ty)} == b.tiles - {(tx, ty)} && r.tiles[(tx, ty)].Element == element
        && (if was.Element == 19 || was.Element == 27 then Mixed(r.tiles[(tx, ty)].Color, color, was.Color)
            else (color - r.tiles[(tx, ty)].Color) % 256 == 0)
        && r.players == b.players && r.ticked == b.ticked && r.audience == b.audience
  {
    var a := AddedTile(b.tiles[(tx, ty)], element, color);
    MixedColors(color, b.tiles[(tx, ty)].Color);
    assert LowNibble(color) + Background(b.tiles[(tx, ty)].Color) < 256;
  }

  lemma MixedColors(front: int, back: Byte)
    ensures var c := LowNibble(front) + Background(back);
      0 <= c < 256 && Mixed(c, front, back) && Mixed(LowNibble(front), front, 0)
  {
  }

  /** Removing what was just added puts the board back. */
  lemma AddedAndRemoved(b: BoardState, tx: int, ty: int, element: Byte, color: Int16, cycle: Int16, template: TStat)
    requires Valid(b) && InGrid(tx, ty) && b.count < 150 && b.ticked <= b.count + 1
    requires forall k :: k in b.players ==> k <= b.count
    requires forall i :: 0 <= i <= b.count ==> b.stats[i].Follower <= b.count && b.stats[i].Leader <= b.count
    ensures var r := RemoveStat(AddStat(b, tx, ty, element, color, cycle, template), b.count + 1);
      && r.tiles == b.tiles && r.count == b.count && r.stats[..b.count + 1] == b.stats[..b.count + 1]
      && r.players == b.players && r.ticked == b.ticked
  {
    hide RemoveStat, AddedTile, AddStat, PlayersAfter;
    var a := AddStat(b, tx, ty, element, color, cycle, template);
    AddedStands(b, tx, ty, element, color, cycle, template);
    RestOfRemoval(a, a.count);
    forall i | 0 <= i <= b.count
      ensures RemoveStat(a, a.count).stats[i] == b.stats[i]
    {
      SurvivorSlot(a, a.count, i);
      assert a.stats[..a.count][i] == b.stats[..a.count][i];
      assert Relinked(b.stats[i], a.count) == b.stats[i];
    }
    SameTiles(b.tiles, a.tiles, (tx, ty));
    PlayersAfterIs(b.players, a.count, b.players);
  }

  lemma SameTiles(t: map<Coord, TTile>, u: map<Coord, TTile>, at: Coord)
    requires at in t && u - {at} == t - {at}
    ensures u[at := t[at]] == t
  {
    forall p | p in t && p != at
      ensures p in u && u[p] == t[p]
    {
      assert p in t - {at} && p in u - {at};
      assert (u - {at})[p] == (t - {at})[p];
    }
    forall p | p in u && p != at
      ensures p in t
    {
      assert p in u - {at};
    }
  }

  /** A move takes the mover's tile to the new square: its colour whole for a player, on
      black over an empty square, over the background there otherwise. It leaves behind
      what the stat stood on, and stands on what was there. */
  lemma MovedStands(b: BoardState, id: int, x: int, y: int)
    requires Valid(b) && 0 <= id <= b.count && InGrid(x, y)
    requires (b.stats[id].X as int, b.stats[id].Y as int) != (x, y)
    ensures var r := MoveStat(b, id, x, y);
      var at := (b.stats[id].X as int, b.stats[id].Y as int);
      var mover, ground := b.tiles[at], b.tiles[(x, y)];
      && r.stats == b.stats[id := b.stats[id].(X := x, Y := y, Under := ground)] && r.tiles[at] == b.stats[id].Under
      && r.tiles - {at, (x, y)} == b.tiles - {at, (x, y)} && r.tiles[(x, y)].Element == mover.Element
      && (if mover.Element == 4 then r.tiles[(x, y)].Color == mover.Color
          else Mixed(r.tiles[(x, y)].Color, mover.Color, if ground.Element == 0 then 0 else ground.Color))
      && r.count == b.count && r.players == b.players && r.ticked == b.ticked && r.audience == b.audience
  {
    MixedColors(b.tiles[(b.stats[id].X as int, b.stats[id].Y as int)].Color, b.tiles[(x, y)].Color);
    hide Mixed, LowNibble, Background;
  }

  /** There and back again: only the mover's background may have changed. */
  lemma MovedAndBack(b: BoardState, id: int, x: int, y: int)
    requires Valid(b) && 0 <= id <= b.count && InGrid(x, y)
    requires (b.stats[id].X as int, b.stats[id].Y as int) != (x, y)
    ensures var at := (b.stats[id].X as int, b.stats[id].Y as int);
      var r := MoveStat(MoveStat(b, id, x, y), id, at.0, at.1);
      && r.stats == b.stats && r.tiles - {at} == b.tiles - {at} && r.tiles[at].Element == b.tiles[at].Element
      && r.tiles[at].Color % 16 == b.tiles[at].Color % 16
      && (b.tiles[at].Element == 4 ==> r.tiles == b.tiles)
  {
    hide MoveStat;
    var at := (b.stats[id].X as int, b.stats[id].Y as int);
    var m := MoveStat(b, id, x, y);
    MovedStands(b, id, x, y);
    MovedStands(m, id, at.0, at.1);
    var r := MoveStat(m, id, at.0, at.1);
    assert r.stats[id] == b.stats[id] && (m.stats[id].X as int, m.stats[id].Y as int) == (x, y);
    assert {at, (x, y)} == {(x, y), at} && r.tiles - {(x, y), at} == m.tiles - {(x, y), at};
    SameKeys(b, m);
    SameKeys(m, r);
    SameOutside(b.tiles, m.tiles, r.tiles, at, (x, y));
    if b.tiles[at].Element == 4 {
      SameTiles(b.tiles, r.tiles, at);
      assert r.tiles[at] == b.tiles[at] && r.tiles[at := b.tiles[at]] == r.tiles;
    }
  }

  lemma SameKeys(b: BoardState, c: BoardState)
    requires Valid(b) && Valid(c)
    ensures b.tiles.Keys == c.tiles.Keys
  {
    assert forall p :: p in b.tiles.Keys <==> InGrid(p.0, p.1);
  }

  lemma SameOutside(t: map<Coord, TTile>, u: map<Coord, TTile>, v: map<Coord, TTile>, p: Coord, q: Coord)
    requires t.Keys == u.Keys == v.Keys && u - {p, q} == t - {p, q} && v - {q, p} == u - {q, p}
    requires q in t && v[q] == t[q]
    ensures v - {p} == t - {p}
  {
    forall c | c in t && c != p
      ensures v[c] == t[c]
    {
      if c != q {
        assert c in t - {p, q} && c in u - {p, q} && c in v - {q, p} && c in u - {q, p};
      }
    }
  }

  /** The slot behind the live ones keeps a stale copy. When it was the removed stat's
      own, its program is dropped unless its length is 0 or a stat from 1 on shares it. */
  lemma SlotLeftBehind(b: BoardState, id: int)
    requires Valid(b) && 0 <= id <= b.count
    ensures var r, s := RemoveStat(b, id), b.stats[b.count];
      var kept := id < b.count || s.DataLen == 0 || exists i :: 1 <= i < b.count && b.stats[i].Data == s.Data;
      && r.stats[b.count + 1..] == b.stats[b.count + 1..]
      && SameStat(r.stats[b.count], s.(Data := r.stats[b.count].Data))
      && r.stats[b.count].Data == if kept then s.Data else ""
  {
  }

  // ---- Terrain -----------------------------------------------------------

  ghost predicate OnePerSquare(b: BoardState)
    requires Valid(b)
  {
    forall i, j :: 0 <= i < j <= b.count ==> b.stats[i].X != b.stats[j].X || b.stats[i].Y != b.stats[j].Y
  }

  ghost predicate Unoccupied(b: BoardState, x: int, y: int)
    requires Valid(b)
  {
    forall i :: 0 <= i <= b.count ==> b.stats[i].X != x || b.stats[i].Y != y
  }

  /** The ground layer: what lies under a stat where one stands, the tile elsewhere. */
  ghost function Terrain(b: BoardState, x: int, y: int): TTile
    requires Valid(b) && InGrid(x, y)
  {
    var s := StatAt(b, x, y);
    if s < 0 then b.tiles[(x, y)] else b.stats[s].Under
  }

  ghost predicate SameTerrain(b: BoardState, c: BoardState)
    requires Valid(b) && Valid(c)
  {
    forall x, y :: InGrid(x, y) ==> Terrain(b, x, y) == Terrain(c, x, y)
  }

  lemma TheStatAt(b: BoardState, i: int)
    requires Valid(b) && OnePerSquare(b) && 0 <= i <= b.count
    ensures StatAt(b, b.stats[i].X, b.stats[i].Y) == i
  {
  }

  lemma NoStatAt(b: BoardState, x: int, y: int)
    requires Valid(b)
    ensures Unoccupied(b, x, y) <==> StatAt(b, x, y) == -1
  {
  }

  datatype Op =
    | Add(tx: int, ty: int, element: Byte, color: Int16, cycle: Int16, template: TStat)
    | Remove(id: int)
    | Move(id: int, newX: int, newY: int)

  ghost predicate Legal(b: BoardState, op: Op)
    requires Valid(b)
  {
    match op
    case Add(tx, ty, _, _, _, _) => InGrid(tx, ty) && Unoccupied(b, tx, ty)
    case Remove(id) => 0 <= id <= b.count
    case Move(id, newX, newY) => 0 <= id <= b.count && InGrid(newX, newY) && Unoccupied(b, newX, newY)
  }

  ghost function Step(b: BoardState, op: Op): (r: BoardState)
    requires Valid(b) && Legal(b, op)
    ensures Valid(r)
  {
    match op
    case Add(tx, ty, element, color, cycle, template) => AddStat(b, tx, ty, element, color, cycle, template)
    case Remove(id) => RemoveStat(b, id)
    case Move(id, newX, newY) => MoveStat(b, id, newX, newY)
  }

  lemma AddKeepsTerrain(b: BoardState, op: Op)
    requires Valid(b) && OnePerSquare(b) && op.Add? && Legal(b, op)
    ensures OnePerSquare(Step(b, op)) && SameTerrain(b, Step(b, op))
  {
    var r := Step(b, op);
    if b.count < MAX_STAT {
      forall x, y | InGrid(x, y)
        ensures Terrain(b, x, y) == Terrain(r, x, y)
      {
        NoStatAt(b, x, y);
        if (x, y) == (op.tx, op.ty) {
          TheStatAt(r, r.count);
        } else if StatAt(b, x, y) >= 0 {
          TheStatAt(r, StatAt(b, x, y));
        } else {
          NoStatAt(r, x, y);
        }
      }
    }
  }

  lemma RemoveKeepsTerrain(b: BoardState, id: int)
    requires Valid(b) && OnePerSquare(b) && 0 <= id <= b.count
    ensures OnePerSquare(RemoveStat(b, id)) && SameTerrain(b, RemoveStat(b, id))
  {
    hide RemoveStat;
    var r := RemoveStat(b, id);
    forall k | 0 <= k <= r.count
      ensures SameStat(r.stats[k], b.stats[KeyBefore(k, id)])
    {
      SurvivorSlot(b, id, KeyBefore(k, id));
    }
    RestOfRemoval(b, id);
    forall x, y | InGrid(x, y)
      ensures Terrain(b, x, y) == Terrain(r, x, y)
    {
      RemoveKeepsTerrainAt(b, id, r, x, y);
    }
  }

  lemma RemoveKeepsTerrainAt(b: BoardState, id: int, r: BoardState, x: int, y: int)
    requires Valid(b) && OnePerSquare(b) && 0 <= id <= b.count && InGrid(x, y)
    requires Valid(r) && r.count == b.count - 1
    requires forall k :: 0 <= k <= r.count ==> SameStat(r.stats[k], b.stats[KeyBefore(k, id)])
    requires r.tiles == b.tiles[(b.stats[id].X, b.stats[id].Y) := b.stats[id].Under]
    ensures Terrain(b, x, y) == Terrain(r, x, y)
  {
    hide FirstAt;
    NoStatAt(b, x, y);
    NoStatAt(r, x, y);
    var s := StatAt(b, x, y);
    if s >= 0 && s != id {
      assert SameStat(r.stats[Renamed(s, id)], b.stats[s]);
      TheStatAt(r, Renamed(s, id));
    } else {
      TheStatAt(b, id);
      assert Unoccupied(r, x, y);
    }
  }

  lemma MoveKeepsTerrain(b: BoardState, id: int, newX: int, newY: int)
    requires Valid(b) && OnePerSquare(b) && 0 <= id <= b.count && InGrid(newX, newY) && Unoccupied(b, newX, newY)
    ensures OnePerSquare(MoveStat(b, id, newX, newY)) && SameTerrain(b, MoveStat(b, id, newX, newY))
  {
    hide ArrivedTile;
    var r := MoveStat(b, id, newX, newY);
    assert OnePerSquare(r);
    hide FirstAt;
    forall x, y | InGrid(x, y)
      ensures Terrain(b, x, y) == Terrain(r, x, y)
    {
      NoStatAt(b, x, y);
      NoStatAt(r, x, y);
      var s := StatAt(b, x, y);
      if (x, y) == (newX, newY) {
        TheStatAt(r, id);
      } else if s >= 0 && s != id {
        TheStatAt(r, s);
      } else {
        TheStatAt(b, id);
        assert Unoccupied(r, x, y);
      }
    }
  }

  ghost predicate LegalRun(b: BoardState, ops: seq<Op>)
    requires Valid(b)
    decreases |ops|
  {
    ops == [] || (Legal(b, ops[0]) && LegalRun(Step(b, ops[0]), ops[1..]))
  }

  ghost function Run(b: BoardState, ops: seq<Op>): (r: BoardState)
    requires Valid(b) && LegalRun(b, ops)
    ensures Valid(r)
    decreases |ops|
  {
    if ops == [] then b else Run(Step(b, ops[0]), ops[1..])
  }

  /** No run of additions, removals and moves to empty squares changes the ground. */
  lemma {:induction false} RunKeepsTerrain(b: BoardState, ops: seq<Op>)
    requires Valid(b) && OnePerSquare(b) && LegalRun(b, ops)
    ensures OnePerSquare(Run(b, ops)) && SameTerrain(b, Run(b, ops))
    decreases |ops|
  {
    if ops != [] {
      match ops[0] {
        case Add(_, _, _, _, _, _) => AddKeepsTerrain(b, ops[0]);
        case Remove(id) => RemoveKeepsTerrain(b, id);
        case Move(id, newX, newY) => MoveKeepsTerrain(b, id, newX, newY);
      }
      RunKeepsTerrain(Step(b, ops[0]), ops[1..]);
    }
  }
}
