/** The two worklists that resolve a landing, over the mutable board. */
module Resolve {
  import opened Grid
  import opened Reachability
  import opened Boards

  ghost predicate IsGrid(a: array2<int>)
    reads a
  {
    && a.Length0 == ROWS && a.Length1 == COLS
    && forall r, c :: 0 <= r < ROWS && 0 <= c < COLS ==> a[r, c] == EMPTY || IsColour(a[r, c])
  }

  /** The board value that a mutable grid holds. */
  ghost function View(a: array2<int>): (b: Board)
    requires IsGrid(a)
    reads a
  {
    map p | p in AllCells() :: a[p.r, p.c]
  }

  /** A search in the middle of cell p: as a frontier, except that p itself has
      been followed only along its first i neighbours. */
  ghost predicate Scanned(inside: set<Cell>, from: set<Cell>, seen: set<Cell>, pending: set<Cell>, p: Cell, i: nat)
    requires i <= 6
  {
    && from * inside <= seen
    && seen <= Reach(inside, from)
    && p in seen
    && pending <= seen
    && (forall x, y :: x in seen - pending && x != p && y in inside && y in Neighbors(x) ==> y in seen)
    && forall j :: 0 <= j < i && Neighbors(p)[j] in inside ==> Neighbors(p)[j] in seen
  }

  ghost function Elements(s: seq<Cell>): set<Cell> {
    set x | x in s
  }

  lemma ElementsAppend(s: seq<Cell>, x: Cell)
    ensures Elements(s + [x]) == Elements(s) + {x}
  {
  }

  lemma ElementsSplit(s: seq<Cell>)
    requires s != []
    ensures Elements(s) == {s[0]} + Elements(s[1..])
  {
    assert s == [s[0]] + s[1..];
  }

  /** Group and queue together list the seen cells, each once. */
  ghost predicate Listed(group: seq<Cell>, queue: seq<Cell>, seen: set<Cell>) {
    Elements(group) + Elements(queue) == seen && |group| + |queue| == |seen|
  }

  /** `queue` grew by the cells that are new in `wider`, each once. */
  ghost predicate Enqueued(queue: seq<Cell>, seen: set<Cell>, longer: seq<Cell>, wider: set<Cell>) {
    && seen <= wider
    && |longer| - |queue| == |wider| - |seen|
    && Elements(longer) == Elements(queue) + (wider - seen)
  }

  lemma ListedStep(group: seq<Cell>, queue: seq<Cell>, seen: set<Cell>, longer: seq<Cell>, wider: set<Cell>)
    requires queue != [] && Listed(group, queue, seen)
    requires Enqueued(queue[1..], seen, longer, wider)
    ensures Listed(group + [queue[0]], longer, wider)
  {
    ElementsSplit(queue);
    ElementsAppend(group, queue[0]);
  }

  lemma ListedAll(group: seq<Cell>, queue: seq<Cell>, seen: set<Cell>)
    requires Listed(group, queue, seen) && |queue| == 0
    ensures Elements(queue) == {} && Elements(group) == seen && |group| == |seen|
  {
    assert Elements(queue) == {};
  }

  lemma EnqueuedStep(queue: seq<Cell>, seen: set<Cell>, longer: seq<Cell>, wider: set<Cell>, n: Cell)
    requires Enqueued(queue, seen, longer, wider) && n !in wider
    ensures Enqueued(queue, seen, longer + [n], wider + {n})
  {
    ElementsAppend(longer, n);
    Appended(Elements(queue), seen, wider, n);
  }

  lemma Appended(q: set<Cell>, seen: set<Cell>, vis: set<Cell>, n: Cell)
    requires seen <= vis && n !in vis
    ensures (q + (vis - seen)) + {n} == q + ((vis + {n}) - seen)
    ensures |vis + {n}| == |vis| + 1
  {
  }

  lemma Progress(inside: set<Cell>, seen: set<Cell>, wider: set<Cell>)
    requires seen <= wider <= inside
    ensures wider == seen || inside - wider < inside - seen
  {
    if x :| x in wider && x !in seen {
      assert x in inside - seen;
    } else {
      assert wider == seen;
    }
  }

  lemma StartScan(inside: set<Cell>, from: set<Cell>, seen: set<Cell>, p: Cell, rest: set<Cell>)
    requires Frontier(inside, from, seen, {p} + rest)
    ensures Scanned(inside, from, seen, rest, p, 0)
  {
  }

  lemma ScanSees(inside: set<Cell>, from: set<Cell>, seen: set<Cell>, pending: set<Cell>, p: Cell, i: nat)
    requires i < 6 && Scanned(inside, from, seen, pending, p, i)
    ensures var n := Neighbors(p)[i];
            if n !in inside || n in seen then Scanned(inside, from, seen, pending, p, i + 1)
            else Scanned(inside, from, seen + {n}, pending + {n}, p, i + 1)
  {
    var n := Neighbors(p)[i];
    if n in inside && n !in seen {
      ReachStep(inside, from, p, n);
    }
  }

  lemma EndScan(inside: set<Cell>, from: set<Cell>, seen: set<Cell>, pending: set<Cell>, p: Cell)
    requires Scanned(inside, from, seen, pending, p, 6)
    ensures Frontier(inside, from, seen, pending)
  {
    forall x, y | x in seen - pending && y in inside && y in Neighbors(x) ensures y in seen {
      if x == p {
        var j :| 0 <= j < 6 && Neighbors(p)[j] == y;
      }
    }
  }

  /** The grid holds exactly the board b. */
  ghost predicate Holds(a: array2<int>, b: Board)
    reads a
  {
    && a.Length0 == ROWS && a.Length1 == COLS
    && forall r, c :: 0 <= r < ROWS && 0 <= c < COLS ==> a[r, c] == b[Cell(r, c)]
  }

  lemma HoldsView(a: array2<int>, b: Board)
    requires Holds(a, b)
    ensures IsGrid(a) && View(a) == b
  {
  }

  /** One round of the colour search: the unseen neighbours of p in the colour
      join the queue, each once. */
  method ScanColour(board: array2<int>, p: Cell, colour: int, queue: seq<Cell>, seen: set<Cell>,
                    ghost b: Board, ghost from: set<Cell>)
    returns (q: seq<Cell>, vis: set<Cell>)
    requires Holds(board, b) && Scanned(OfColour(b, colour), from, seen, Elements(queue), p, 0)
    ensures Frontier(OfColour(b, colour), from, vis, Elements(q))
    ensures Enqueued(queue, seen, q, vis)
    ensures vis == seen ==> q == queue
  {
    ghost var like := OfColour(b, colour);
    q, vis := queue, seen;
    var ns := Neighbors(p);
    for i := 0 to 6
      invariant Scanned(like, from, vis, Elements(q), p, i)
      invariant Enqueued(queue, seen, q, vis)
      invariant vis == seen ==> q == queue
    {
      var n := ns[i];
      ScanSees(like, from, vis, Elements(q), p, i);
      if !InBoard(n) || board[n.r, n.c] != colour || n in vis {
        continue;
      }
      ElementsAppend(q, n);
      EnqueuedStep(queue, seen, q, vis, n);
      vis := vis + {n};
      q := q + [n];
    }
    EndScan(like, from, vis, Elements(q), p);
  }

  /** The breadth-first colour search: the group of `start` in the order of
      discovery, each member once. */
  method SearchGroup(board: array2<int>, start: Cell, colour: int, ghost b: Board)
    returns (group: seq<Cell>)
    requires Holds(board, b) && InBoard(start) && b[start] == colour
    ensures Elements(group) == Group(b, start) && |group| == |Group(b, start)|
  {
    ghost var like := OfColour(b, colour);
    var q := [start];
    var vis := {start};
    group := [];
    ReachSource(like, {start}, start);
    while |q| > 0
      invariant Frontier(like, {start}, vis, Elements(q))
      invariant Listed(group, q, vis)
      decreases like - vis, |q|
    {
      var p := q[0];
      ElementsSplit(q);
      StartScan(like, {start}, vis, p, Elements(q[1..]));
      var longer, wider := ScanColour(board, p, colour, q[1..], vis, b, {start});
      ListedStep(group, q, vis, longer, wider);
      Progress(like, vis, wider);
      group, q, vis := group + [p], longer, wider;
    }
    ListedAll(group, q, vis);
    FrontierExhausted(like, {start}, vis);
    assert vis == Group(b, start);
  }

  method ClearCell(board: array2<int>, p: Cell, ghost b: Board, ghost gone: set<Cell>)
    requires Holds(board, Erase(b, gone)) && InBoard(p)
    modifies board
    ensures Holds(board, Erase(b, gone + {p}))
  {
    board[p.r, p.c] := EMPTY;
  }

  method EraseEach(board: array2<int>, group: seq<Cell>, ghost s: set<Cell>)
    requires IsGrid(board) && s <= AllCells() && Elements(group) == s
    modifies board
    ensures IsGrid(board) && View(board) == Erase(old(View(board)), s)
  {
    ghost var before := View(board);
    var k := 0;
    while k < |group|
      invariant k <= |group|
      invariant Holds(board, Erase(before, Elements(group[..k])))
    {
      assert group[k] in Elements(group);
      ElementsAppend(group[..k], group[k]);
      ClearCell(board, group[k], before, Elements(group[..k]));
      assert group[..k + 1] == group[..k] + [group[k]];
      k := k + 1;
    }
    assert group[..k] == group;
    HoldsView(board, Erase(before, s));
  }

  /** Removes the colour group of the landing cell when it has three or more
      members, and reports how many bubbles went. */
  method ClearMatches(board: array2<int>, sr: int, sc: int) returns (removed: nat)
    requires IsGrid(board) && InBoard(Cell(sr, sc))
    modifies board
    ensures IsGrid(board)
    ensures View(board) == Cleared(old(View(board)), Cell(sr, sc))
    ensures removed == |Matched(old(View(board)), Cell(sr, sc))|
    ensures var b, p := old(View(board)), Cell(sr, sc);
            if b[p] >= 0 && |Group(b, p)| >= 3 then
              removed == |Group(b, p)| && forall q :: InBoard(q) && q in Group(b, p) ==> View(board)[q] == EMPTY
            else removed == 0 && View(board) == b
  {
    var start := Cell(sr, sc);
    ghost var before := View(board);
    assert Erase(before, {}) == before;
    if board[sr, sc] < 0 {
      return 0;
    }
    var group := SearchGroup(board, start, board[sr, sc], before);
    if |group| < 3 {
      return 0;
    }
    EraseEach(board, group, Group(before, start));
    return |group|;
  }

  /** The breadth-first search from the occupied top-row cells. */
  method SearchHanging(board: array2<int>, ghost b: Board) returns (vis: set<Cell>)
    requires Holds(board, b)
    ensures vis == Hanging(b)
  {
    ghost var full := Occupied(b);
    ghost var top := TopRow();
    var q := [];
    vis := {};
    for c := 0 to COLS
      invariant vis == set x | x in full && x.r == 0 && x.c < c
      invariant Elements(q) == vis
    {
      if board[0, c] >= 0 {
        var p := Cell(0, c);
        assert Elements(q + [p]) == Elements(q) + {p};
        q := q + [p];
        vis := vis + {p};
      }
    }
    ReachIsClosed(full, top);
    while |q| > 0
      invariant Frontier(full, top, vis, Elements(q))
      decreases full - vis, |q|
    {
      var p := q[0];
      ElementsSplit(q);
      StartScan(full, top, vis, p, Elements(q[1..]));
      q := q[1..];
      var ns := Neighbors(p);
      ghost var seen, tail := vis, q;
      for i := 0 to 6
        invariant Scanned(full, top, vis, Elements(q), p, i)
        invariant seen <= vis && (vis == seen ==> q == tail)
      {
        var n := ns[i];
        ScanSees(full, top, vis, Elements(q), p, i);
        if !InBoard(n) || board[n.r, n.c] < 0 || n in vis {
          continue;
        }
        ElementsAppend(q, n);
        vis := vis + {n};
        q := q + [n];
      }
      EndScan(full, top, vis, Elements(q), p);
    }
    assert Elements(q) == {};
    FrontierExhausted(full, top, vis);
  }

  /** The unseen bubbles that a row-by-row scan standing at (r, c) has passed. */
  ghost function Unseen(b: Board, vis: set<Cell>, r: int, c: int): set<Cell> {
    set p | p in Occupied(b) - vis && (p.r < r || (p.r == r && p.c < c))
  }

  lemma UnseenAdvances(b: Board, vis: set<Cell>, r: int, c: int)
    requires InBoard(Cell(r, c))
    ensures var p := Cell(r, c);
            Unseen(b, vis, r, c + 1) == Unseen(b, vis, r, c) + (if b[p] >= 0 && p !in vis then {p} else {})
    ensures Cell(r, c) !in Unseen(b, vis, r, c)
  {
  }

  lemma UnseenWraps(b: Board, vis: set<Cell>, r: int)
    ensures Unseen(b, vis, r, COLS) == Unseen(b, vis, r + 1, 0)
    ensures Unseen(b, vis, ROWS, 0) == Occupied(b) - vis
    ensures Unseen(b, vis, 0, 0) == {}
  {
  }

  method SweepCell(board: array2<int>, p: Cell, vis: set<Cell>, ghost b: Board, ghost gone: set<Cell>)
    returns (dropped: nat)
    requires InBoard(p) && p !in gone && Holds(board, Erase(b, gone))
    modifies board
    ensures Holds(board, Erase(b, gone + if b[p] >= 0 && p !in vis then {p} else {}))
    ensures dropped == if b[p] >= 0 && p !in vis then 1 else 0
  {
    if board[p.r, p.c] < 0 {
      assert gone + {} == gone;
      return 0;
    }
    if p !in vis {
      ClearCell(board, p, b, gone);
      return 1;
    }
    assert gone + {} == gone;
    return 0;
  }

  method SweepRow(board: array2<int>, r: int, vis: set<Cell>, ghost b: Board) returns (dropped: nat)
    requires 0 <= r < ROWS && Holds(board, Erase(b, Unseen(b, vis, r, 0)))
    modifies board
    ensures Holds(board, Erase(b, Unseen(b, vis, r + 1, 0)))
    ensures |Unseen(b, vis, r, 0)| + dropped == |Unseen(b, vis, r + 1, 0)|
  {
    hide Holds, Erase, Unseen;
    dropped := 0;
    for c := 0 to COLS
      invariant Holds(board, Erase(b, Unseen(b, vis, r, c)))
      invariant |Unseen(b, vis, r, 0)| + dropped == |Unseen(b, vis, r, c)|
    {
      UnseenAdvances(b, vis, r, c);
      var k := SweepCell(board, Cell(r, c), vis, b, Unseen(b, vis, r, c));
      dropped := dropped + k;
    }
    UnseenWraps(b, vis, r);
  }

  /** Removes every bubble that no chain of bubbles joins to the top row. */
  method DropFloating(board: array2<int>) returns (dropped: nat)
    requires IsGrid(board)
    modifies board
    ensures IsGrid(board)
    ensures View(board) == Dropped(old(View(board)))
    ensures dropped == |Floating(old(View(board)))|
  {
    hide Holds, Erase, Unseen, Dropped, Floating, Hanging;
    ghost var before := View(board);
    ViewHolds(board);
    var vis := SearchHanging(board, before);
    dropped := 0;
    AllUnseen(before, vis);
    for r := 0 to ROWS
      invariant Holds(board, Erase(before, Unseen(before, vis, r, 0)))
      invariant dropped == |Unseen(before, vis, r, 0)|
    {
      var n := SweepRow(board, r, vis, before);
      dropped := dropped + n;
    }
    HoldsView(board, Dropped(before));
  }

  lemma ViewHolds(board: array2<int>)
    requires IsGrid(board)
    ensures Holds(board, View(board))
  {
  }

  /** The sweep starts with nothing erased and ends with the floating bubbles gone. */
  lemma AllUnseen(b: Board, vis: set<Cell>)
    requires vis == Hanging(b)
    ensures Unseen(b, vis, 0, 0) == {} && Erase(b, Unseen(b, vis, 0, 0)) == b
    ensures Unseen(b, vis, ROWS, 0) == Floating(b) && Erase(b, Unseen(b, vis, ROWS, 0)) == Dropped(b)
  {
    UnseenWraps(b, vis, 0);
    hide Hanging, Unseen;
  }
}
