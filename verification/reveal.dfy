/**
 `Board.reveal`: the guards, lazy placement on the first accepted reveal, and
 the stack-driven flood fill that opens the zero-count region around a blank
 cell together with its numbered rim.
 */
module Reveals {
  import opened Geometry
  import opened Boards

  /** `q` was unrevealed in `g0` and is revealed in `g`. */
  ghost predicate Opened(g0: map<Pos, Cell>, g: map<Pos, Cell>, q: Pos) {
    q in g0 && q in g && !g0[q].revealed && g[q].revealed
  }

  /** `c` is a cell the flood expands: the blank start cell, or a blank cell the flood opened. */
  ghost predicate Expanded(g0: map<Pos, Cell>, g: map<Pos, Cell>, start: Pos, c: Pos) {
    c in g && g[c].adj == 0 && (c == start || Opened(g0, g, c))
  }

  /** The flood would not open `n`: it is revealed, flagged or a mine. */
  ghost predicate Done(g: map<Pos, Cell>, n: Pos) {
    n in g && (g[n].revealed || g[n].flagged || g[n].mine)
  }

  /** No neighbour of `c` is left that the flood would still open. */
  ghost predicate Settled(w: int, h: int, g: map<Pos, Cell>, c: Pos) {
    forall n :: n in Neighbors(w, h, c) ==> Done(g, n)
  }

  lemma SettledGrows(w: int, h: int, g0: map<Pos, Cell>, g1: map<Pos, Cell>, c: Pos)
    requires Grows(g0, g1) && Settled(w, h, g0, c)
    ensures Settled(w, h, g1, c)
  {
  }

  /**
   What holds of the board `b` and the `stack` throughout the flood started
   from `start` on `b0`: only reveals happened, the counter follows, no
   flagged cell and no mine was opened, and the stack holds expanded cells.
   */
  ghost predicate FloodInv(b0: Board, b: Board, start: Pos, stack: seq<Pos>) {
    && OnlyReveals(b0, b)
    && start in b.grid && b.grid[start].revealed
    && b.revealedCount == |RevealedSet(b.grid)|
    && NoFlaggedRevealed(b.grid)
    && (forall q :: Opened(b0.grid, b.grid, q) ==> !b.grid[q].mine)
    && (forall k :: 0 <= k < |stack| ==> Expanded(b0.grid, b.grid, start, stack[k]))
  }

  /** Every expanded cell outside the stack and outside `skip` is settled. */
  ghost predicate Closed(b0: Board, b: Board, start: Pos, stack: seq<Pos>, skip: set<Pos>) {
    forall d :: Expanded(b0.grid, b.grid, start, d) && d !in stack && d !in skip ==> Settled(b.w, b.h, b.grid, d)
  }

  /** The stack after opening `n`: it is pushed exactly when its count is zero. */
  function Push(stack: seq<Pos>, g: map<Pos, Cell>, n: Pos): (s: seq<Pos>)
    requires n in g
    ensures |s| <= |stack| + 1
  {
    if g[n].adj == 0 then stack + [n] else stack
  }

  /** Opening a safe, unflagged, unrevealed cell (and pushing it when blank) keeps the flood invariant. */
  lemma OpenKeepsInv(b0: Board, b: Board, start: Pos, stack: seq<Pos>, n: Pos)
    requires FloodInv(b0, b, start, stack)
    requires n in b.grid && !b.grid[n].revealed && !b.grid[n].flagged && !b.grid[n].mine
    ensures FloodInv(b0, Open(b, n), start, Push(stack, b.grid, n))
  {
    var b' := Open(b, n);
    var s' := Push(stack, b.grid, n);
    GrowsTrans(b0.grid, b.grid, b'.grid);
    assert NoFlaggedRevealed(b'.grid);
    forall q | Opened(b0.grid, b'.grid, q) ensures !b'.grid[q].mine {
      if q != n {
        assert Opened(b0.grid, b.grid, q);
      }
    }
    forall k | 0 <= k < |s'| ensures Expanded(b0.grid, b'.grid, start, s'[k]) {
      if k < |stack| {
        assert Expanded(b0.grid, b.grid, start, stack[k]);
      }
    }
  }

  /** Opening a cell keeps every expanded cell expanded. */
  lemma OpenKeepsExpanded(b0: Board, b: Board, start: Pos, n: Pos, c: Pos)
    requires OnlyReveals(b0, b) && n in b.grid && !b.grid[n].revealed
    requires Expanded(b0.grid, b.grid, start, c)
    ensures Expanded(b0.grid, Open(b, n).grid, start, c)
  {
  }

  /** Opening a cell (and pushing it when blank) keeps the settled cells settled. */
  lemma OpenKeepsClosed(b0: Board, b: Board, start: Pos, stack: seq<Pos>, skip: set<Pos>, n: Pos)
    requires OnlyReveals(b0, b) && Closed(b0, b, start, stack, skip)
    requires n in b.grid && !b.grid[n].revealed
    ensures Closed(b0, Open(b, n), start, Push(stack, b.grid, n), skip)
  {
    var b' := Open(b, n);
    var s' := Push(stack, b.grid, n);
    forall d | Expanded(b0.grid, b'.grid, start, d) && d !in s' && d !in skip
      ensures Settled(b'.w, b'.h, b'.grid, d)
    {
      assert d != n;
      assert Expanded(b0.grid, b.grid, start, d);
      SettledGrows(b.w, b.h, b.grid, b'.grid, d);
    }
  }

  /** Opening a cell keeps already handled neighbours handled. */
  lemma OpenKeepsDone(b: Board, n: Pos, ns: seq<Pos>, i: int)
    requires n in b.grid && !b.grid[n].revealed && 0 <= i <= |ns|
    requires forall j :: 0 <= j < i ==> Done(b.grid, ns[j])
    ensures forall j :: 0 <= j < i ==> Done(Open(b, n).grid, ns[j])
  {
  }

  lemma DoneExtend(g: map<Pos, Cell>, ns: seq<Pos>, i: int)
    requires 0 <= i < |ns| && Done(g, ns[i])
    requires forall j :: 0 <= j < i ==> Done(g, ns[j])
    ensures forall j :: 0 <= j < i + 1 ==> Done(g, ns[j])
  {
  }

  /**
   Every cell the flood opened records the expanded neighbour it was opened
   from (`parent`) and a `rank` above that neighbour's, the start having rank
   zero; following parents therefore leads back to the start.
   */
  ghost predicate Traced(b0: Board, b: Board, start: Pos, parent: map<Pos, Pos>, rank: map<Pos, nat>) {
    forall q :: Opened(b0.grid, b.grid, q) ==>
      && q in parent && q in rank && rank[q] > 0
      && Adjacent(parent[q], q)
      && Expanded(b0.grid, b.grid, start, parent[q])
      && (parent[q] == start || (parent[q] in rank && rank[parent[q]] < rank[q]))
  }

  /** Opening `n` from the expanded cell `c` extends the trace. */
  lemma OpenKeepsTraced(b0: Board, b: Board, start: Pos, parent: map<Pos, Pos>, rank: map<Pos, nat>, c: Pos, n: Pos)
    requires OnlyReveals(b0, b) && Traced(b0, b, start, parent, rank)
    requires Expanded(b0.grid, b.grid, start, c) && (c == start || c in rank) && Adjacent(c, n)
    requires start in b.grid && b.grid[start].revealed && n in b.grid && !b.grid[n].revealed
    ensures Traced(b0, Open(b, n), start, parent[n := c], rank[n := if c == start then 1 else rank[c] + 1])
  {
    var b' := Open(b, n);
    var r' := rank[n := if c == start then 1 else rank[c] + 1];
    forall q | Opened(b0.grid, b'.grid, q)
      ensures && q in parent[n := c] && q in r' && r'[q] > 0
              && Adjacent(parent[n := c][q], q)
              && Expanded(b0.grid, b'.grid, start, parent[n := c][q])
              && (parent[n := c][q] == start || (parent[n := c][q] in r' && r'[parent[n := c][q]] < r'[q]))
    {
      if q != n {
        assert Opened(b0.grid, b.grid, q);
        var p := parent[q];
        assert p != n by {
          assert p == start || Opened(b0.grid, b.grid, p);
        }
        OpenKeepsExpanded(b0, b, start, n, p);
      } else {
        OpenKeepsExpanded(b0, b, start, n, c);
      }
    }
  }

  /** A path from `start` whose every step goes to a neighbour and whose every cell but the last was expanded. */
  ghost predicate FloodPath(g0: map<Pos, Cell>, g: map<Pos, Cell>, start: Pos, path: seq<Pos>) {
    && |path| >= 1 && path[0] == start
    && forall i :: 0 <= i < |path| - 1 ==> Expanded(g0, g, start, path[i]) && Adjacent(path[i], path[i + 1])
  }

  /** The path to `q` obtained by following parents back to the start. */
  ghost function Trace(b0: Board, b: Board, start: Pos, parent: map<Pos, Pos>, rank: map<Pos, nat>, q: Pos): (path: seq<Pos>)
    requires Traced(b0, b, start, parent, rank)
    requires q == start || Opened(b0.grid, b.grid, q)
    ensures FloodPath(b0.grid, b.grid, start, path) && path[|path| - 1] == q
    decreases if q == start then 0 else rank[q]
  {
    if q == start then [start]
    else
      var p := parent[q];
      var prefix := Trace(b0, b, start, parent, rank, p);
      assert forall i :: 0 <= i < |prefix| ==> (prefix + [q])[i] == prefix[i];
      prefix + [q]
  }

  /** After the cell `c` has been popped and its neighbours scanned. */
  lemma ClosedAfterScan(b0: Board, b: Board, start: Pos, stack: seq<Pos>, c: Pos)
    requires Closed(b0, b, start, stack, {c}) && Settled(b.w, b.h, b.grid, c)
    ensures Closed(b0, b, start, stack, {})
  {
  }

  /**
   The flood fill of the source: pops a cell, opens each neighbour that is
   neither revealed, flagged nor a mine, and pushes the opened ones whose count
   is zero. It opens no mine and no flagged cell, leaves no expanded cell with
   a neighbour still to open, and opens only cells reached from the start
   through blank cells it expanded.
   */
  method FloodFill(b0: Board, start: Pos) returns (b: Board)
    requires Valid(b0) && b0.minesPlaced
    requires start in b0.grid && b0.grid[start].revealed && !b0.grid[start].mine && b0.grid[start].adj == 0
    ensures Valid(b) && OnlyReveals(b0, b)
    ensures forall q :: Opened(b0.grid, b.grid, q) ==> !b.grid[q].mine && !b.grid[q].flagged
    ensures forall c :: Expanded(b0.grid, b.grid, start, c) ==> Settled(b.w, b.h, b.grid, c)
    ensures forall q :: Opened(b0.grid, b.grid, q) ==>
              exists path :: FloodPath(b0.grid, b.grid, start, path) && path[|path| - 1] == q
  {
    ghost var parent, rank;
    b, parent, rank := FloodLoop(b0, start);
    OnlyRevealsValid(b0, b);
    forall q | Opened(b0.grid, b.grid, q)
      ensures exists path :: FloodPath(b0.grid, b.grid, start, path) && path[|path| - 1] == q
    {
      var path := Trace(b0, b, start, parent, rank, q);
    }
  }

  /**
   The outer loop of the flood. The measure is the number of unrevealed cells
   plus the stack length, since a cell is pushed only as it turns revealed.
   */
  method FloodLoop(b0: Board, start: Pos) returns (b: Board, ghost parent: map<Pos, Pos>, ghost rank: map<Pos, nat>)
    requires Covers(b0) && b0.revealedCount == |RevealedSet(b0.grid)| && NoFlaggedRevealed(b0.grid)
    requires start in b0.grid && b0.grid[start].revealed && !b0.grid[start].mine && b0.grid[start].adj == 0
    ensures FloodInv(b0, b, start, []) && Closed(b0, b, start, [], {}) && Traced(b0, b, start, parent, rank)
  {
    b := b0;
    parent, rank := map[], map[];
    var stack := [start];
    while |stack| > 0
      invariant FloodInv(b0, b, start, stack)
      invariant Closed(b0, b, start, stack, {})
      invariant Traced(b0, b, start, parent, rank)
      decreases |UnrevealedSet(b.grid)| + |stack|
    {
      var c := stack[|stack| - 1];
      stack := stack[..|stack| - 1];
      b, stack, parent, rank := ScanNeighbours(b0, start, b, stack, c, parent, rank);
    }
  }

  /** The inner loop of the flood: opens the neighbours of the popped cell `c`. */
  method ScanNeighbours(b0: Board, start: Pos, b: Board, stack: seq<Pos>, c: Pos, ghost parent: map<Pos, Pos>, ghost rank: map<Pos, nat>)
    returns (r: Board, s: seq<Pos>, ghost parent': map<Pos, Pos>, ghost rank': map<Pos, nat>)
    requires Covers(b0)
    requires FloodInv(b0, b, start, stack) && Traced(b0, b, start, parent, rank)
    requires Closed(b0, b, start, stack, {c}) && Expanded(b0.grid, b.grid, start, c)
    ensures FloodInv(b0, r, start, s) && Closed(b0, r, start, s, {}) && Traced(b0, r, start, parent', rank')
    ensures |UnrevealedSet(r.grid)| + |s| <= |UnrevealedSet(b.grid)| + |stack|
  {
    r, s, parent', rank' := b, stack, parent, rank;
    assert c == start || c in rank by {
      if c != start {
        assert Opened(b0.grid, b.grid, c);
      }
    }
    var ns := Neighbors(b.w, b.h, c);
    var i := 0;
    while i < |ns|
      invariant 0 <= i <= |ns|
      invariant FloodInv(b0, r, start, s) && Traced(b0, r, start, parent', rank')
      invariant Closed(b0, r, start, s, {c}) && Expanded(b0.grid, r.grid, start, c)
      invariant c == start || c in rank'
      invariant forall j :: 0 <= j < i ==> Done(r.grid, ns[j])
      invariant |UnrevealedSet(r.grid)| + |s| <= |UnrevealedSet(b.grid)| + |stack|
    {
      var n := ns[i];
      assert n in b0.grid;
      var cell := r.grid[n];
      if !cell.revealed && !cell.flagged && !cell.mine {
        ghost var unrevealed := |UnrevealedSet(r.grid)|;
        OpenKeepsInv(b0, r, start, s, n);
        OpenKeepsClosed(b0, r, start, s, {c}, n);
        OpenKeepsExpanded(b0, r, start, n, c);
        OpenKeepsDone(r, n, ns, i);
        OpenKeepsTraced(b0, r, start, parent', rank', c, n);
        parent', rank' := parent'[n := c], rank'[n := if c == start then 1 else rank'[c] + 1];
        s := Push(s, r.grid, n);
        r := Open(r, n);
        assert |UnrevealedSet(r.grid)| == unrevealed - 1;
      }
      DoneExtend(r.grid, ns, i);
      i := i + 1;
    }
    ClosedAfterScan(b0, r, start, s, c);
  }

  /** `g1` shows at least what `g0` shows: the same cells, the same flags, and every revealed cell still revealed. */
  ghost predicate ViewGrows(g0: map<Pos, Cell>, g1: map<Pos, Cell>) {
    && g1.Keys == g0.Keys
    && forall q :: q in g0 ==> g1[q].flagged == g0[q].flagged && (g0[q].revealed ==> g1[q].revealed)
  }

  /** `g1` is `g` with the unrevealed cell `p` opened, as far as revealing goes. */
  ghost predicate OpensOnly(g: map<Pos, Cell>, g1: map<Pos, Cell>, p: Pos) {
    && g1.Keys == g.Keys && p in g && !g[p].revealed && g1[p].revealed
    && forall c :: c in g && c != p ==> g1[c].revealed == g[c].revealed
  }

  /** Opening the clicked cell `p` first and then flooding from it is, seen from the board before the click, a flood from `p`. */
  lemma OpenedFromClick(g: map<Pos, Cell>, g1: map<Pos, Cell>, g2: map<Pos, Cell>, p: Pos, q: Pos)
    requires OpensOnly(g, g1, p) && g2.Keys == g.Keys
    ensures Opened(g, g2, q) <==> (q == p && g2[p].revealed) || Opened(g1, g2, q)
  {
  }

  lemma ExpandedFromClick(g: map<Pos, Cell>, g1: map<Pos, Cell>, g2: map<Pos, Cell>, p: Pos, c: Pos)
    requires OpensOnly(g, g1, p) && g2.Keys == g.Keys && g2[p].revealed
    ensures Expanded(g, g2, p, c) <==> Expanded(g1, g2, p, c)
  {
    OpenedFromClick(g, g1, g2, p, c);
  }

  /** A path through cells expanded after the click is a path through cells expanded since before it. */
  lemma FloodPathFromClick(g: map<Pos, Cell>, g1: map<Pos, Cell>, g2: map<Pos, Cell>, p: Pos, path: seq<Pos>)
    requires OpensOnly(g, g1, p) && g2.Keys == g.Keys && g2[p].revealed
    requires FloodPath(g1, g2, p, path)
    ensures FloodPath(g, g2, p, path)
  {
    forall i | 0 <= i < |path| - 1 ensures Expanded(g, g2, p, path[i]) {
      ExpandedFromClick(g, g1, g2, p, path[i]);
    }
  }

  /** No cell but the clicked one was opened on a mine. */
  lemma ClickSafe(g: map<Pos, Cell>, g1: map<Pos, Cell>, g2: map<Pos, Cell>, p: Pos)
    requires OpensOnly(g, g1, p) && g2.Keys == g.Keys
    requires forall q :: Opened(g1, g2, q) ==> !g2[q].mine
    ensures forall q :: Opened(g, g2, q) && q != p ==> !g2[q].mine
  {
    forall q | Opened(g, g2, q) && q != p ensures !g2[q].mine {
      OpenedFromClick(g, g1, g2, p, q);
    }
  }

  /** The flood's completeness, restated from the board before the click. */
  lemma ClickComplete(w: int, h: int, g: map<Pos, Cell>, g1: map<Pos, Cell>, g2: map<Pos, Cell>, p: Pos)
    requires OpensOnly(g, g1, p) && g2.Keys == g.Keys && g2[p].revealed
    requires forall c :: Expanded(g1, g2, p, c) ==> Settled(w, h, g2, c)
    ensures forall c :: Expanded(g, g2, p, c) ==> Settled(w, h, g2, c)
  {
    forall c | Expanded(g, g2, p, c) ensures Settled(w, h, g2, c) {
      ExpandedFromClick(g, g1, g2, p, c);
    }
  }

  /** Every cell opened since before the click is reached from it: the clicked cell by the one-cell path. */
  lemma ClickSound(g: map<Pos, Cell>, g1: map<Pos, Cell>, g2: map<Pos, Cell>, p: Pos)
    requires OpensOnly(g, g1, p) && g2.Keys == g.Keys && g2[p].revealed
    requires forall q :: Opened(g1, g2, q) ==> exists path :: FloodPath(g1, g2, p, path) && path[|path| - 1] == q
    ensures forall q :: Opened(g, g2, q) ==> exists path :: FloodPath(g, g2, p, path) && path[|path| - 1] == q
  {
    forall q | Opened(g, g2, q)
      ensures exists path :: FloodPath(g, g2, p, path) && path[|path| - 1] == q
    {
      OpenedFromClick(g, g1, g2, p, q);
      if q == p {
        assert FloodPath(g, g2, p, [p]);
      } else {
        var path :| FloodPath(g1, g2, p, path) && path[|path| - 1] == q;
        FloodPathFromClick(g, g1, g2, p, path);
      }
    }
  }

  /**
   What an accepted reveal of the hidden cell `p` of `b` leaves in `r`: the
   player's view only grows, `r` is valid with mines placed and `p` revealed,
   `hit` says whether `p` is a mine, a hit or a numbered cell opens nothing
   else, no other opened cell is a mine, and unless it was a hit the flood is
   complete and opened only cells reached from `p` through blank cells.
   */
  ghost predicate Outcome(b: Board, r: Board, p: Pos, hit: bool) {
    && r.w == b.w && r.h == b.h && r.mineTarget == b.mineTarget
    && ViewGrows(b.grid, r.grid)
    && Valid(r) && r.minesPlaced && p in r.grid && r.grid[p].revealed
    && (hit <==> r.grid[p].mine)
    && (hit || r.grid[p].adj != 0 ==> RevealedSet(r.grid) == RevealedSet(b.grid) + {p})
    && (forall q :: Opened(b.grid, r.grid, q) && q != p ==> !r.grid[q].mine)
    && (!hit ==> forall c :: Expanded(b.grid, r.grid, p, c) ==> Settled(r.w, r.h, r.grid, c))
    && (forall q :: Opened(b.grid, r.grid, q) ==> exists path :: FloodPath(b.grid, r.grid, p, path) && path[|path| - 1] == q)
  }

  /** Grids the player cannot tell apart give the same `Opened`, `Expanded` and `FloodPath`. */
  lemma SameViewOpened(g: map<Pos, Cell>, g1: map<Pos, Cell>, g2: map<Pos, Cell>, q: Pos)
    requires SameView(g, g1)
    ensures Opened(g, g2, q) <==> Opened(g1, g2, q)
  {
  }

  lemma SameViewPath(g: map<Pos, Cell>, g1: map<Pos, Cell>, g2: map<Pos, Cell>, p: Pos, path: seq<Pos>)
    requires SameView(g, g1)
    ensures FloodPath(g, g2, p, path) <==> FloodPath(g1, g2, p, path)
  {
    forall i | 0 <= i < |path| ensures Expanded(g, g2, p, path[i]) <==> Expanded(g1, g2, p, path[i]) {
      SameViewOpened(g, g1, g2, path[i]);
    }
  }

  /** Placing mines changes nothing the reveal outcome speaks of. */
  lemma OutcomeSameView(b: Board, b1: Board, r: Board, p: Pos, hit: bool)
    requires SameView(b.grid, b1.grid) && b1.w == b.w && b1.h == b.h && b1.mineTarget == b.mineTarget
    requires Outcome(b1, r, p, hit)
    ensures Outcome(b, r, p, hit)
  {
    RevealedAgree(b.grid, b1.grid);
    forall q ensures Opened(b.grid, r.grid, q) <==> Opened(b1.grid, r.grid, q) {
      SameViewOpened(b.grid, b1.grid, r.grid, q);
    }
    forall q | Opened(b.grid, r.grid, q)
      ensures exists path :: FloodPath(b.grid, r.grid, p, path) && path[|path| - 1] == q
    {
      var path :| FloodPath(b1.grid, r.grid, p, path) && path[|path| - 1] == q;
      SameViewPath(b.grid, b1.grid, r.grid, p, path);
    }
  }

  /** Opens the hidden cell `p` of a board whose mines are placed, and floods from it when it is blank. */
  method OpenAndFlood(b: Board, p: Pos) returns (r: Board, hit: bool)
    requires Valid(b) && b.minesPlaced && p in b.grid && !b.grid[p].revealed && !b.grid[p].flagged
    ensures Outcome(b, r, p, hit)
    ensures MineSet(r.grid) == MineSet(b.grid)
  {
    var b2 := Open(b, p);
    OnlyRevealsValid(b, b2);
    GrowsMines(b.grid, b2.grid);
    if b2.grid[p].mine {
      r, hit := b2, true;
    } else if b2.grid[p].adj == 0 {
      r := FloodFill(b2, p);
      hit := false;
      GrowsMines(b2.grid, r.grid);
      GrowsTrans(b.grid, b2.grid, r.grid);
      ClickComplete(r.w, r.h, b.grid, b2.grid, r.grid, p);
    } else {
      r, hit := b2, false;
      ClickComplete(r.w, r.h, b.grid, b2.grid, r.grid, p);
    }
    ClickSafe(b.grid, b2.grid, r.grid, p);
    ClickSound(b.grid, b2.grid, r.grid, p);
  }

  /**
   The part of `Board.reveal` past its guards: the clicked cell `p` is on the
   board, neither flagged nor revealed. Mines are placed from `sample` if this
   is the first accepted reveal, so the first reveal never hits a mine.
   */
  method RevealHidden(b: Board, p: Pos, sample: set<Pos>) returns (r: Board, hit: bool)
    requires Valid(b) && p in b.grid && !b.grid[p].revealed && !b.grid[p].flagged
    requires !b.minesPlaced ==> IsSample(sample, Candidates(b.w, b.h, b.mineTarget, p), b.mineTarget)
    ensures Outcome(b, r, p, hit)
    ensures !b.minesPlaced ==> MineSet(r.grid) == sample && !hit
    ensures b.minesPlaced ==> MineSet(r.grid) == MineSet(b.grid)
  {
    var b1 := b;
    if !b.minesPlaced {
      b1 := PlaceMinesExcluding(b, p.x, p.y, sample);
    }
    r, hit := OpenAndFlood(b1, p);
    OutcomeSameView(b, b1, r, p, hit);
  }

  /**
   `Board.reveal`. A move outside the board or on a flag is rejected
   (`ok` false) and changes nothing; a revealed cell is accepted and changes
   nothing; anything else is `RevealHidden`.
   */
  method Reveal(b: Board, x: int, y: int, sample: set<Pos>) returns (r: Board, ok: bool, hit: bool)
    requires Valid(b)
    requires NeedsPlacement(b, x, y) ==> IsSample(sample, Candidates(b.w, b.h, b.mineTarget, Pos(x, y)), b.mineTarget)
    ensures Valid(r)
    ensures ok <==> InBounds(b.w, b.h, x, y) && !b.grid[Pos(x, y)].flagged
    ensures !ok ==> r == b && !hit
    ensures ok && b.grid[Pos(x, y)].revealed ==> r == b && !hit
    ensures ok && !b.grid[Pos(x, y)].revealed ==> Outcome(b, r, Pos(x, y), hit)
    ensures NeedsPlacement(b, x, y) ==> MineSet(r.grid) == sample && !hit
    ensures !NeedsPlacement(b, x, y) ==> MineSet(r.grid) == MineSet(b.grid) && r.minesPlaced == b.minesPlaced
  {
    var p := Pos(x, y);
    if !InBounds(b.w, b.h, x, y) {
      return b, false, false;
    }
    var cell := b.grid[p];
    if cell.flagged {
      return b, false, false;
    }
    if cell.revealed {
      return b, true, false;
    }
    r, hit := RevealHidden(b, p, sample);
    ok := true;
  }
}
