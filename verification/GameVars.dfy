/** The records, limits and element attributes every other module reads
    (engine/gamevars.go and the table built in engine/elements.go). */
module GameVars {
  type Byte = x: int | 0 <= x < 256
  type Int16 = x: int | -32768 <= x < 32768

  datatype Option<T> = None | Some(value: T)

  const MAX_STAT := 150
  const BOARD_WIDTH := 60
  const BOARD_HEIGHT := 25

  // Sizes of the fixed arrays: a frame of one cell around the board, and one
  // stat slot past the last usable one.
  const GRID_W := BOARD_WIDTH + 2
  const GRID_H := BOARD_HEIGHT + 2
  const STAT_SLOTS := MAX_STAT + 2

  datatype TTile = TTile(Element: Byte, Color: Byte)

  datatype TStat = TStat(
    X: Byte, Y: Byte, StepX: Int16, StepY: Int16, Cycle: Int16,
    P1: Byte, P2: Byte, P3: Byte, Follower: Int16, Leader: Int16,
    Under: TTile, Data: string, DataPos: Int16, DataLen: Int16)

  /** The counters of one player that other procedures move about but never look into here. */
  datatype PlayerState = PlayerState(Health: int, Ammo: int, Gems: int, Torches: int, Score: int, EnergizerTicks: int)

  const E_EMPTY: Byte := 0
  const E_BOARD_EDGE: Byte := 1
  const E_PLAYER: Byte := 4
  const E_AMMO: Byte := 5
  const E_TORCH: Byte := 6
  const E_GEM: Byte := 7
  const E_KEY: Byte := 8
  const E_DOOR: Byte := 9
  const E_SCROLL: Byte := 10
  const E_PASSAGE: Byte := 11
  const E_BOMB: Byte := 13
  const E_ENERGIZER: Byte := 14
  const E_BULLET: Byte := 18
  const E_WATER: Byte := 19
  const E_FOREST: Byte := 20
  const E_BREAKABLE: Byte := 23
  const E_BOULDER: Byte := 24
  const E_SLIDER_NS: Byte := 25
  const E_SLIDER_EW: Byte := 26
  const E_FAKE: Byte := 27
  const E_TRANSPORTER: Byte := 30
  const E_BEAR: Byte := 34
  const E_RUFFIAN: Byte := 35
  const E_OBJECT: Byte := 36
  const E_SLIME: Byte := 37
  const E_SHARK: Byte := 38
  const E_SPINNING_GUN: Byte := 39
  const E_LION: Byte := 41
  const E_TIGER: Byte := 42
  const E_CENTIPEDE_HEAD: Byte := 44
  const E_CENTIPEDE_SEGMENT: Byte := 45

  predicate Walkable(element: Byte) {
    element == E_EMPTY || element == E_FAKE
  }

  predicate Pushable(element: Byte) {
    || element == E_EMPTY || element == E_PLAYER || element == E_LION || element == E_TIGER
    || element == E_KEY || element == E_AMMO || element == E_GEM || element == E_SCROLL
    || element == E_RUFFIAN || element == E_BEAR || element == E_BOULDER || element == E_BOMB
  }

  predicate Destructible(element: Byte) {
    || element == E_PLAYER || element == E_LION || element == E_TIGER
    || element == E_CENTIPEDE_HEAD || element == E_CENTIPEDE_SEGMENT || element == E_BULLET
    || element == E_GEM || element == E_RUFFIAN || element == E_BEAR
  }

  predicate PlaceableOnTop(element: Byte) {
    element == E_WATER || element == E_FAKE
  }

  function Decimal(n: nat): string {
    (if n < 10 then "" else Decimal(n / 10)) + [(n % 10 + '0' as int) as char]
  }

  type Coord = (int, int)

  predicate InGrid(x: int, y: int) {
    0 <= x < GRID_W && 0 <= y < GRID_H
  }

  predicate OnBoard(x: int, y: int) {
    1 <= x <= BOARD_WIDTH && 1 <= y <= BOARD_HEIGHT
  }

  /** The next key of a loop that ranges over a map, in whatever order. */
  method AnyKey<T>(keys: set<T>) returns (key: T)
    requires keys != {}
    ensures key in keys
  {
    key :| key in keys;
  }
}
