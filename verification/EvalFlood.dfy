/** The reachable squares of a board (engine/eval.go, evalFloodBoard). */
module EvalFlood {
  import opened GameVars
  import opened BoardSpec
  import opened Game
  import opened Reachability

  /** evalOptimisticallyTraversable: walkable, or something a player may clear away. */
  predicate Traversable(element: Byte) {
    || Walkable(element)
    || element == E_PLAYER || element == E_AMMO || element == E_TORCH || element == E_GEM || element == E_KEY
    || element == E_ENERGIZER || element == E_BREAKABLE || element == E_FOREST || element == E_DOOR
    || element == E_PASSAGE || element == E_SCROLL || element == E_OBJECT || element == E_BEAR
    || element == E_RUFFIAN || element == E_LION || element == E_TIGER || element == E_SHARK
    || element == E_SPINNING_GUN || element == E_SLIME || element == E_CENTIPEDE_HEAD || element == E_CENTIPEDE_SEGMENT
  }

  /** By code: open ground, players, what can be picked up or opened, forest, breakables,
      passages and everything that moves by itself; not walls, water, boulders or sliders. */
  lemma TraversableCodes(element: Byte)
    ensures Traversable(element) <==>
      element in {0, 4, 5, 6, 7, 8, 9, 10, 11, 14, 20, 23, 27, 34, 35, 36, 37, 38, 39, 41, 42, 44, 45}
  {
  }

  /** The order in which the flood looks at the squares around one. */
  function Neighbours(at: Coord): seq<Coord> {
    [(at.0 - 1, at.1), (at.0 + 1, at.1), (at.0, at.1 - 1), (at.0, at.1 + 1)]
  }

  /** The two squares share an edge. */
  predicate Beside(p: Coord, q: Coord) {
    (p.0 == q.0 && (p.1 == q.1 + 1 || p.1 == q.1 - 1)) || (p.1 == q.1 && (p.0 == q.0 + 1 || p.0 == q.0 - 1))
  }

  lemma NeighboursAreBeside(at: Coord, q: Coord)
    ensures q in Neighbours(at) <==> Beside(at, q)
  {
    var n := Neighbours(at);
    assert n[0] in n && n[1] in n && n[2] in n && n[3] in n;
  }

  /** A square that the flood may enter: the start, whatever it shows, or a traversable one. */
  ghost predicate Enterable(b: BoardState, start: Coord, at: Coord)
    requires Valid(b)
  {
    OnBoard(at.0, at.1) && (at == start || Traversable(b.tiles[at].Element))
  }

  ghost predicate Passes(b: BoardState, start: Coord, from: Coord, to: Coord)
    requires Valid(b)
  {
    Beside(from, to) && Enterable(b, start, to)
  }

  ghost function Edges(b: BoardState, start: Coord): (Coord, Coord) -> bool
    requires Valid(b)
  {
    (p, q) => Valid(b) && Passes(b, start, p, q)
  }

  ghost function Squares(): (s: set<Coord>)
    ensures forall at {:trigger at in s} :: at in s <==> OnBoard(at.0, at.1)
  {
    set x, y | 1 <= x <= BOARD_WIDTH && 1 <= y <= BOARD_HEIGHT :: (x, y)
  }

  /** Every neighbour of a reached square is reached, waits in the queue or cannot be entered. */
  ghost predicate Frontier(b: BoardState, start: Coord, reached: set<Coord>, queue: seq<Coord>)
    requires Valid(b)
  {
    && (start in reached || start in queue || !OnBoard(start.0, start.1))
    && Covered(b, start, reached, queue)
    && (forall p :: p in reached ==> Reaches(Edges(b, start), start, p))
    && (forall q :: q in queue ==> Waiting(start, reached, q))
  }

  ghost predicate Covered(b: BoardState, start: Coord, reached: set<Coord>, queue: seq<Coord>)
    requires Valid(b)
  {
    forall p, q :: p in reached && Passes(b, start, p, q) ==> q in reached || q in queue
  }

  ghost predicate Waiting(start: Coord, reached: set<Coord>, q: Coord) {
    q == start || exists p :: p in reached && Beside(p, q)
  }

  lemma QueueParts(queue: seq<Coord>)
    requires queue != []
    ensures forall q :: q in queue <==> q == queue[0] || q in queue[1..]
  {
    assert queue == [queue[0]] + queue[1..];
  }

  lemma FrontierPops(b: BoardState, start: Coord, reached: set<Coord>, queue: seq<Coord>)
    requires Valid(b) && Frontier(b, start, reached, queue) && queue != []
    requires !Enterable(b, start, queue[0]) || queue[0] in reached
    ensures Frontier(b, start, reached, queue[1..])
  {
    hide Edges, Waiting, Traversable;
    QueueParts(queue);
  }

  lemma FrontierGrows(b: BoardState, start: Coord, reached: set<Coord>, queue: seq<Coord>)
    requires Valid(b) && Frontier(b, start, reached, queue) && queue != []
    requires Enterable(b, start, queue[0])
    ensures Frontier(b, start, reached + {queue[0]}, queue[1..] + Neighbours(queue[0]))
  {
    var at := queue[0];
    var more, later := reached + {at}, queue[1..] + Neighbours(at);
    QueueParts(queue);
    assert Reaches(Edges(b, start), start, at) by {
      ReachesFront(b, start, reached, at);
    }
    hide Edges, Enterable, Valid;
    forall q
      ensures q in Neighbours(at) <==> Beside(at, q)
    {
      NeighboursAreBeside(at, q);
    }
    hide Beside, Neighbours;
    assert Covered(b, start, more, later);
    forall q | q in later
      ensures Waiting(start, more, q)
    {
      if q in Neighbours(at) {
        assert at in more;
      } else {
        assert q in queue && Waiting(start, reached, q);
        if q != start {
          var p :| p in reached && Beside(p, q);
          assert p in more;
        }
      }
    }
  }

  lemma ReachesFront(b: BoardState, start: Coord, reached: set<Coord>, at: Coord)
    requires Valid(b) && Waiting(start, reached, at) && Enterable(b, start, at)
    requires forall p :: p in reached ==> Reaches(Edges(b, start), start, p)
    ensures Reaches(Edges(b, start), start, at)
  {
    if at == start {
      ReachesItself(Edges(b, start), start);
    } else {
      var p :| p in reached && Beside(p, at);
      assert Edges(b, start)(p, at);
      ReachesNext(Edges(b, start), start, p, at);
    }
  }

  lemma FloodIsExact(b: BoardState, start: Coord, reached: set<Coord>)
    requires Valid(b) && Frontier(b, start, reached, []) && OnBoard(start.0, start.1)
    ensures forall at :: at in reached <==> Reaches(Edges(b, start), start, at)
  {
    ClosureIsReach(Edges(b, start), reached, start);
  }

  /** The flood returns exactly the squares 4-connected to an on-board start through
      traversable squares, and nothing from a start off the board. */
  method FloodBoard(e: Engine, start: Coord) returns (reached: set<Coord>)
    requires e.Ok()
    ensures OnBoard(start.0, start.1) ==> forall at :: at in reached <==> Reaches(Edges(e.Value(), start), start, at)
    ensures !OnBoard(start.0, start.1) ==> reached == {}
  {
    reached := {};
    var queue := [start];
    ghost var b := e.Value();
    hide Frontier, Edges, Neighbours, Traversable, Squares;
    FrontierStarts(b, start);
    while |queue| > 0
      invariant Frontier(b, start, reached, queue) && reached <= Squares()
      invariant !OnBoard(start.0, start.1) ==> reached == {} && (queue == [start] || queue == [])
      decreases Squares() - reached, |queue|
    {
      var at := queue[0];
      var rest := queue[1..];
      if OnBoard(at.0, at.1) && at !in reached {
        e.GridAt(at.0, at.1);
      }
      if OnBoard(at.0, at.1) && at !in reached && (at == start || Traversable(e.Tiles[at.0, at.1].Element)) {
        FrontierGrows(b, start, reached, queue);
        assert at in Squares() - reached;
        reached := reached + {at};
        queue := rest + Neighbours(at);
      } else {
        FrontierPops(b, start, reached, queue);
        queue := rest;
      }
    }
    assert queue == [];
    if OnBoard(start.0, start.1) {
      FloodIsExact(b, start, reached);
    }
  }

  lemma FrontierStarts(b: BoardState, start: Coord)
    requires Valid(b)
    ensures Frontier(b, start, {}, [start])
  {
  }
}
