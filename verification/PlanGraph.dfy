/** The connectivity check of a world plan (engine/plan.go, Plan.Validate). */
module PlanGraph {
  import opened Reachability

  datatype PlanLink = PlanLink(Target: string, Kind: string, Dir: string, Bidir: bool)

  datatype PlanBoard = PlanBoard(ID: string, Index: int, IsTitle: bool, IsStart: bool, Links: seq<PlanLink>)

  ghost predicate Named(boards: seq<PlanBoard>, id: string) {
    exists i :: 0 <= i < |boards| && boards[i].ID == id
  }

  /** Some link of a board called `a` leads to `b`. */
  ghost predicate Forward(boards: seq<PlanBoard>, a: string, b: string) {
    exists i, k :: 0 <= i < |boards| && 0 <= k < |boards[i].Links| && boards[i].ID == a
        && boards[i].Links[k].Target == b
  }

  /** Some link that counts both ways leads from a board called `b` to `a`. */
  ghost predicate Backward(boards: seq<PlanBoard>, a: string, b: string) {
    exists i, k :: 0 <= i < |boards| && 0 <= k < |boards[i].Links| && boards[i].ID == b
      && boards[i].Links[k].Target == a && boards[i].Links[k].Bidir
  }

  /** One step of the plan's graph; a link to a board that is not in the plan is none. */
  ghost predicate Linked(boards: seq<PlanBoard>, a: string, b: string) {
    Named(boards, a) && Named(boards, b) && (Forward(boards, a, b) || Backward(boards, a, b))
  }

  ghost function Edges(boards: seq<PlanBoard>): (string, string) -> bool {
    (a, b) => Linked(boards, a, b)
  }

  type Adjacency = map<string, seq<string>>

  function Out(adj: Adjacency, a: string): seq<string> {
    if a in adj then adj[a] else []
  }

  function Joined(adj: Adjacency, a: string, b: string): Adjacency {
    adj[a := Out(adj, a) + [b]]
  }

  method BoardNames(boards: seq<PlanBoard>) returns (ids: set<string>)
    ensures forall id :: id in ids <==> Named(boards, id)
  {
    ids := {};
    for i := 0 to |boards|
      invariant forall id :: id in ids <==> exists j :: 0 <= j < i && boards[j].ID == id
    {
      ids := ids + {boards[i].ID};
    }
  }

  /** The edges that board i gives, from its first k links. */
  ghost predicate FromLinks(boards: seq<PlanBoard>, i: nat, k: nat, a: string, b: string)
    requires i < |boards| && k <= |boards[i].Links|
  {
    exists m :: 0 <= m < k && LinkGives(boards, i, m, a, b)
  }

  ghost predicate LinkGives(boards: seq<PlanBoard>, i: nat, m: nat, a: string, b: string)
    requires i < |boards| && m < |boards[i].Links|
  {
    var lk := boards[i].Links[m];
    && Named(boards, lk.Target)
    && ((boards[i].ID == a && lk.Target == b) || (lk.Bidir && lk.Target == a && boards[i].ID == b))
  }

  ghost predicate FromBoards(boards: seq<PlanBoard>, n: nat, a: string, b: string)
    requires n <= |boards|
  {
    exists i :: 0 <= i < n && FromLinks(boards, i, |boards[i].Links|, a, b)
  }

  lemma AllBoardsGiveTheEdges(boards: seq<PlanBoard>, a: string, b: string)
    ensures FromBoards(boards, |boards|, a, b) <==> Linked(boards, a, b)
  {
    if FromBoards(boards, |boards|, a, b) {
      var i :| 0 <= i < |boards| && FromLinks(boards, i, |boards[i].Links|, a, b);
      var m :| 0 <= m < |boards[i].Links| && LinkGives(boards, i, m, a, b);
      assert boards[i].Links[m].Target == b || boards[i].Links[m].Target == a;
    }
    if Linked(boards, a, b) {
      if Forward(boards, a, b) {
        var i, k :| 0 <= i < |boards| && 0 <= k < |boards[i].Links| && boards[i].ID == a
            && boards[i].Links[k].Target == b;
        assert LinkGives(boards, i, k, a, b) && FromLinks(boards, i, |boards[i].Links|, a, b);
      } else {
        var i, k :| 0 <= i < |boards| && 0 <= k < |boards[i].Links| && boards[i].ID == b
          && boards[i].Links[k].Target == a && boards[i].Links[k].Bidir;
        assert LinkGives(boards, i, k, a, b) && FromLinks(boards, i, |boards[i].Links|, a, b);
      }
    }
  }

  /** The lists that the two nested loops over boards and links build. */
  method BuildAdjacency(boards: seq<PlanBoard>) returns (adj: Adjacency)
    ensures forall a, b :: b in Out(adj, a) <==> Linked(boards, a, b)
  {
    var ids := BoardNames(boards);
    adj := map[];
    for i := 0 to |boards|
      invariant forall a, b :: b in Out(adj, a) <==> FromBoards(boards, i, a, b)
    {
      adj := AddLinks(boards, ids, i, adj);
    }
    forall a, b
      ensures b in Out(adj, a) <==> Linked(boards, a, b)
    {
      AllBoardsGiveTheEdges(boards, a, b);
    }
  }

  method AddLinks(boards: seq<PlanBoard>, ids: set<string>, i: nat, from: Adjacency) returns (adj: Adjacency)
    requires i < |boards| && forall id :: id in ids <==> Named(boards, id)
    requires forall a, b :: b in Out(from, a) <==> FromBoards(boards, i, a, b)
    ensures forall a, b :: b in Out(adj, a) <==> FromBoards(boards, i + 1, a, b)
  {
    adj := from;
    var board := boards[i];
    for k := 0 to |board.Links|
      invariant forall a, b :: b in Out(adj, a) <==> FromBoards(boards, i, a, b) || FromLinks(boards, i, k, a, b)
    {
      var lk := board.Links[k];
      ghost var before := adj;
      if lk.Target in ids {
        adj := Joined(adj, board.ID, lk.Target);
        if lk.Bidir {
          adj := Joined(adj, lk.Target, board.ID);
        }
      }
      forall a, b
        ensures b in Out(adj, a) <==> b in Out(before, a) || LinkGives(boards, i, k, a, b)
      {
        JoinedOut(before, board.ID, lk.Target, a, b);
        JoinedOut(Joined(before, board.ID, lk.Target), lk.Target, board.ID, a, b);
      }
      LinksUpTo(boards, i, k);
    }
    BoardsUpTo(boards, i);
  }

  lemma JoinedOut(adj: Adjacency, x: string, y: string, a: string, b: string)
    ensures b in Out(Joined(adj, x, y), a) <==> b in Out(adj, a) || (a == x && b == y)
  {
  }

  lemma LinksUpTo(boards: seq<PlanBoard>, i: nat, k: nat)
    requires i < |boards| && k < |boards[i].Links|
    ensures forall a, b :: FromLinks(boards, i, k + 1, a, b) <==>
      FromLinks(boards, i, k, a, b) || LinkGives(boards, i, k, a, b)
  {
  }

  lemma BoardsUpTo(boards: seq<PlanBoard>, i: nat)
    requires i < |boards|
    ensures forall a, b :: FromBoards(boards, i + 1, a, b) <==>
      FromBoards(boards, i, a, b) || FromLinks(boards, i, |boards[i].Links|, a, b)
  {
  }

  // ---- The search --------------------------------------------------------

  /** Where the stack search stands: what is seen is reachable, what is on the stack is
      seen, and what is seen and not on the stack has all its successors seen. */
  ghost predicate Searching(adj: Adjacency, edge: (string, string) -> bool, start: string, seen: set<string>,
          stack: seq<string>)
  {
    && start in seen
    && (forall n :: n in seen ==> Reaches(edge, start, n))
    && (forall n :: n in stack ==> n in seen)
    && forall n, m :: n in seen && n !in stack && m in Out(adj, n) ==> m in seen
  }

  /** A depth-first search from the start. */
  method Search(boards: seq<PlanBoard>, adj: Adjacency, start: string) returns (seen: set<string>)
    requires (forall a, b :: b in Out(adj, a) <==> Linked(boards, a, b))
    ensures forall n :: n in seen <==> Reaches(Edges(boards), start, n)
  {
    ghost var edge := Edges(boards);
    var ids := BoardNames(boards);
    seen := {start};
    var stack := [start];
    ReachesItself(edge, start);
    while |stack| > 0
      invariant Searching(adj, edge, start, seen, stack)
      invariant seen <= ids + {start}
      decreases ids + {start} - seen, |stack|
    {
      var n := stack[|stack| - 1];
      seen, stack := Visit(boards, adj, edge, start, n, seen, stack, ids);
    }
    assert Closed(edge, seen) by {
      assert forall a, b :: a in seen && edge(a, b) ==> b in Out(adj, a);
    }
    ClosureIsReach(edge, seen, start);
  }

  /** Pops n and pushes those of its successors that have not been seen. */
  method Visit(boards: seq<PlanBoard>, adj: Adjacency, ghost edge: (string, string) -> bool, start: string, n: string,
               seen0: set<string>, stack0: seq<string>, ghost ids: set<string>)
    returns (seen: set<string>, stack: seq<string>)
    requires edge == Edges(boards) && (forall a, b :: b in Out(adj, a) <==> Linked(boards, a, b))
    requires forall id :: id in ids <==> Named(boards, id)
    requires |stack0| > 0 && n == stack0[|stack0| - 1] && Searching(adj, edge, start, seen0, stack0)
    requires seen0 <= ids + {start}
    ensures Searching(adj, edge, start, seen, stack) && seen0 <= seen <= ids + {start}
    ensures seen == seen0 ==> |stack| < |stack0|
  {
    seen, stack := seen0, stack0[..|stack0| - 1];
    var out := Out(adj, n);
    assert stack0 == stack + [n];
    var k := 0;
    while k < |out|
      invariant 0 <= k <= |out| && seen0 <= seen <= ids + {start} && (seen == seen0 ==> |stack| < |stack0|)
      invariant forall x :: x in seen ==> Reaches(edge, start, x)
      invariant forall x :: x in stack ==> x in seen
      invariant forall x, m :: x in seen && x !in stack && x != n && m in Out(adj, x) ==> m in seen
      invariant forall j :: 0 <= j < k ==> out[j] in seen
    {
      var m := out[k];
      if m !in seen {
        assert m in Out(adj, n) && edge(n, m);
        ReachesNext(edge, start, n, m);
        seen := seen + {m};
        stack := stack + [m];
      }
      k := k + 1;
    }
  }

  // ---- The report --------------------------------------------------------

  /** The start: the first board marked START, else the first of lowest index that is no title. */
  ghost predicate IsStartBoard(boards: seq<PlanBoard>, s: int) {
    if exists i :: 0 <= i < |boards| && boards[i].IsStart then
      0 <= s < |boards| && boards[s].IsStart && forall i :: 0 <= i < s ==> !boards[i].IsStart
    else if exists i :: 0 <= i < |boards| && !boards[i].IsTitle then
      && 0 <= s < |boards| && !boards[s].IsTitle
      && (forall i :: 0 <= i < |boards| && !boards[i].IsTitle ==> boards[s].Index <= boards[i].Index)
      && forall i :: 0 <= i < s && !boards[i].IsTitle ==> boards[s].Index < boards[i].Index
    else s == -1
  }

  method ChooseStart(boards: seq<PlanBoard>) returns (s: int)
    ensures IsStartBoard(boards, s)
  {
    s := -1;
    for i := 0 to |boards|
      invariant s == -1 ==> forall j :: 0 <= j < i ==> !boards[j].IsStart
      invariant s != -1 ==> 0 <= s < i && boards[s].IsStart && forall j :: 0 <= j < s ==> !boards[j].IsStart
    {
      if boards[i].IsStart && s == -1 {
        s := i;
      }
    }
    if s == -1 {
      for i := 0 to |boards|
        invariant s == -1 ==> forall j :: 0 <= j < i ==> boards[j].IsTitle
        invariant s != -1 ==> 0 <= s < i && !boards[s].IsTitle
        invariant s != -1 ==> forall j :: 0 <= j < i && !boards[j].IsTitle ==> boards[s].Index <= boards[j].Index
        invariant s != -1 ==> forall j :: 0 <= j < s && !boards[j].IsTitle ==> boards[s].Index < boards[j].Index
      {
        if !boards[i].IsTitle && (s == -1 || boards[i].Index < boards[s].Index) {
          s := i;
        }
      }
    }
  }

  /** The boards reported as unreachable are exactly the non-title boards to which no
      directed path leads from the start; a plan without a start reports none of them
      and is refused for having no start. */
  method Unreachable(boards: seq<PlanBoard>) returns (reported: seq<nat>, start: int)
    ensures IsStartBoard(boards, start)
    ensures forall i: nat :: i in reported <==>
      && i < |boards| && !boards[i].IsTitle && start != -1
      && !Reaches(Edges(boards), boards[start].ID, boards[i].ID)
    ensures forall j, k :: 0 <= j < k < |reported| ==> reported[j] < reported[k]
  {
    reported := [];
    start := ChooseStart(boards);
    if start == -1 {
      return;
    }
    var adj := BuildAdjacency(boards);
    var seen := Search(boards, adj, boards[start].ID);
    for i := 0 to |boards|
      invariant forall j: nat :: j in reported <==> j < i && !boards[j].IsTitle && boards[j].ID !in seen
      invariant forall j, k :: 0 <= j < k < |reported| ==> reported[j] < reported[k]
    {
      if !boards[i].IsTitle && boards[i].ID !in seen {
        assert forall j :: 0 <= j < |reported| ==> reported[j] in reported;
        reported := reported + [i];
      }
    }
  }
}
