/**
 The board engine's state: cell records on a `w × h` grid, the counters kept
 beside them, construction, lazy mine placement, flag toggling and the win
 test. Revealing (with its flood fill) lives in module `Reveals`.

 The source keeps the grid as a list of rows indexed `grid[y][x]`; here it is a
 map from `Pos(x, y)` to `Cell` whose keys are exactly the board's cells.
 */
module Boards {
  import opened Geometry
  import opened Results

  /** One grid position; `adj` is the number of adjacent mines once mines are placed. */
  datatype Cell = Cell(mine: bool, revealed: bool, flagged: bool, adj: int)

  const Fresh := Cell(false, false, false, 0)

  datatype Board = Board(
    w: int,
    h: int,
    mineTarget: int,
    grid: map<Pos, Cell>,
    minesPlaced: bool,
    revealedCount: int)

  /** The two ways construction fails (both are a `ValueError` in the source). */
  datatype BoardError = InvalidDimensions | InvalidMineCount

  function RevealedSet(g: map<Pos, Cell>): set<Pos> {
    set q | q in g && g[q].revealed
  }

  function UnrevealedSet(g: map<Pos, Cell>): set<Pos> {
    set q | q in g && !g[q].revealed
  }

  function MineSet(g: map<Pos, Cell>): set<Pos> {
    set q | q in g && g[q].mine
  }

  function FlagSet(g: map<Pos, Cell>): set<Pos> {
    set q | q in g && g[q].flagged
  }

  /** The adjacency count the source computes: how many cells of the neighbour scan of `p` are in `mines`. */
  function AdjCount(w: int, h: int, mines: set<Pos>, p: Pos): (n: nat)
    ensures n <= 8
  {
    CountIn(Neighbors(w, h, p), mines)
  }

  /** The mined cells around `p`, stated without the scan. */
  function MinedAround(w: int, h: int, mines: set<Pos>, p: Pos): set<Pos> {
    set q | q in mines && InBounds(w, h, q.x, q.y) && Adjacent(p, q)
  }

  /** The adjacency count is the number of mined Moore neighbours, as a brute-force recount would find. */
  lemma AdjCountIsMinedNeighbours(w: int, h: int, mines: set<Pos>, p: Pos)
    ensures AdjCount(w, h, mines, p) == |MinedAround(w, h, mines, p)|
  {
    var ns := Neighbors(w, h, p);
    CountInDistinct(ns, mines);
    assert (set x | x in ns && x in mines) == MinedAround(w, h, mines, p);
  }

  /**
   Every non-mine cell's `adj` counts its mined neighbours. (The trigger keeps
   the count from being unfolded wherever the grid is merely read.)
   */
  ghost predicate AdjCorrect(w: int, h: int, g: map<Pos, Cell>) {
    forall q {:trigger AdjCount(w, h, MineSet(g), q)} :: q in g && !g[q].mine ==> g[q].adj == AdjCount(w, h, MineSet(g), q)
  }

  /** Before placement every cell is untouched apart from its flag. */
  ghost predicate Untouched(g: map<Pos, Cell>) {
    forall q :: q in g ==> !g[q].mine && !g[q].revealed && g[q].adj == 0
  }

  ghost predicate NoFlaggedRevealed(g: map<Pos, Cell>) {
    forall q :: q in g ==> !(g[q].revealed && g[q].flagged)
  }

  /** The grid's keys are exactly the coordinates of a `w × h` board. */
  ghost predicate Covers(b: Board) {
    forall q :: q in b.grid <==> InBounds(b.w, b.h, q.x, q.y)
  }

  ghost predicate Shaped(b: Board) {
    && b.w > 0 && b.h > 0 && 0 < b.mineTarget <= b.w * b.h - 1
    && Covers(b)
  }

  lemma CoversCells(b: Board)
    requires Covers(b)
    ensures b.grid.Keys == Cells(b.w, b.h)
  {
  }

  /**
   The invariant every board satisfies between operations: the constructor's
   constraints, the grid covering exactly the board, `revealedCount` counting
   the revealed cells, no cell both flagged and revealed, and the two placement
   states: before placement every cell is untouched apart from its flag; after
   it exactly `mineTarget` cells are mines and every other cell's `adj` counts
   its mined neighbours.
   */
  ghost predicate Valid(b: Board) {
    && Shaped(b)
    && b.revealedCount == |RevealedSet(b.grid)|
    && NoFlaggedRevealed(b.grid)
    && (!b.minesPlaced ==> Untouched(b.grid))
    && (b.minesPlaced ==> |MineSet(b.grid)| == b.mineTarget && AdjCorrect(b.w, b.h, b.grid))
  }

  /** Adjacency stays correct when neither mines nor counts change. */
  lemma AdjCorrectTransfer(w: int, h: int, g0: map<Pos, Cell>, g1: map<Pos, Cell>)
    requires AdjCorrect(w, h, g0)
    requires g1.Keys == g0.Keys
    requires forall q :: q in g0 ==> g1[q].mine == g0[q].mine && g1[q].adj == g0[q].adj
    ensures MineSet(g1) == MineSet(g0)
    ensures AdjCorrect(w, h, g1)
  {
    MinesAgree(g0, g1);
  }

  /** Constructs a board, or fails exactly as the source's constructor raises. */
  function NewBoard(width: int, height: int, mines: int): (r: Result<Board, BoardError>)
    ensures r == Err(InvalidDimensions) <==> width <= 0 || height <= 0
    ensures r == Err(InvalidMineCount) <==> width > 0 && height > 0 && !(0 < mines <= width * height - 1)
    ensures r.Ok? ==> Valid(r.value)
    ensures r.Ok? ==> && r.value.w == width && r.value.h == height && r.value.mineTarget == mines
                      && !r.value.minesPlaced && r.value.revealedCount == 0
                      && forall q :: q in r.value.grid ==> r.value.grid[q] == Fresh
  {
    if width <= 0 || height <= 0 then Err(InvalidDimensions)
    else if !(0 < mines <= width * height - 1) then Err(InvalidMineCount)
    else
      var g := map q | q in Cells(width, height) :: Fresh;
      assert RevealedSet(g) == {};
      Ok(Board(width, height, mines, g, false, 0))
  }

  lemma ValidInBounds(b: Board, x: int, y: int)
    requires Valid(b) && InBounds(b.w, b.h, x, y)
    ensures Pos(x, y) in b.grid
  {
  }

  /** A revealed cell means the mines are placed. */
  lemma RevealedMeansPlaced(b: Board, p: Pos)
    requires Valid(b) && p in b.grid && b.grid[p].revealed
    ensures b.minesPlaced
  {
  }

  /** The cells the source excludes around the first click: the click and its neighbours. */
  function Excluded(w: int, h: int, p: Pos): set<Pos> {
    {p} + set q | q in Neighbors(w, h, p)
  }

  /**
   The pool `random.sample` draws from: every cell outside the excluded zone,
   or, when that leaves fewer than `k` cells, every cell but the click itself.
   */
  function Candidates(w: int, h: int, k: int, p: Pos): set<Pos> {
    var pool := Cells(w, h) - Excluded(w, h, p);
    if |pool| < k then Cells(w, h) - {p} else pool
  }

  /** `m` is a possible outcome of drawing `k` distinct cells from `pool`. */
  predicate IsSample(m: set<Pos>, pool: set<Pos>, k: int) {
    m <= pool && |m| == k
  }

  /** The excluded zone has at most nine cells. */
  lemma ExcludedCard(w: int, h: int, p: Pos)
    ensures |Excluded(w, h, p)| <= 9
  {
    ElementsCard(Neighbors(w, h, p));
  }

  /** The pool always holds enough cells, so placement never fails on a constructible board. */
  lemma CandidatesSuffice(w: int, h: int, k: int, p: Pos)
    requires w > 0 && h > 0 && 0 < k <= w * h - 1 && InBounds(w, h, p.x, p.y)
    ensures |Candidates(w, h, k, p)| >= k
    ensures p !in Candidates(w, h, k, p) && Candidates(w, h, k, p) <= Cells(w, h)
  {
    CellsCard(w, h);
    SubsetCard({p}, Cells(w, h));
  }

  /**
   First-click fairness: when the board has room for the whole excluded zone
   (at least nine cells beyond the mines), no cell of it is a candidate.
   */
  lemma CandidatesFair(w: int, h: int, k: int, p: Pos)
    requires w > 0 && h > 0 && 0 < k <= w * h - 9 && InBounds(w, h, p.x, p.y)
    ensures Candidates(w, h, k, p) * Excluded(w, h, p) == {}
  {
    CellsCard(w, h);
    ExcludedCard(w, h, p);
    var e := Excluded(w, h, p);
    var c := Cells(w, h);
    assert c * e <= e;
    SubsetCard(c * e, e);
    assert c - e == c - (c * e);
    SubsetCard(c * e, c);
  }

  lemma {:induction false} SampleExists(pool: set<Pos>, k: nat)
    requires k <= |pool|
    ensures exists m :: IsSample(m, pool, k)
  {
    if k == 0 {
      assert IsSample({}, pool, 0);
    } else {
      var x :| x in pool;
      SampleExists(pool - {x}, k - 1);
      var m :| IsSample(m, pool - {x}, k - 1);
      assert IsSample(m + {x}, pool, k);
    }
  }

  /** `random.sample` always has something to return on a valid board. */
  lemma PlacementPossible(b: Board, p: Pos)
    requires Valid(b) && InBounds(b.w, b.h, p.x, p.y)
    ensures exists m :: IsSample(m, Candidates(b.w, b.h, b.mineTarget, p), b.mineTarget)
  {
    CandidatesSuffice(b.w, b.h, b.mineTarget, p);
    SampleExists(Candidates(b.w, b.h, b.mineTarget, p), b.mineTarget);
  }

  /** Reveal will place mines at `(x, y)`: the move is accepted and mines are not yet placed. */
  predicate NeedsPlacement(b: Board, x: int, y: int) {
    && !b.minesPlaced && InBounds(b.w, b.h, x, y)
    && Pos(x, y) in b.grid && !b.grid[Pos(x, y)].flagged && !b.grid[Pos(x, y)].revealed
  }

  /** Marks the cells of `sample` as mines, the first loop of the source's placement. */
  function MarkMines(g: map<Pos, Cell>, sample: set<Pos>): (m: map<Pos, Cell>)
    ensures m.Keys == g.Keys
    ensures forall q :: q in g ==> m[q] == g[q].(mine := g[q].mine || q in sample)
  {
    map q | q in g :: g[q].(mine := g[q].mine || q in sample)
  }

  /** Sets every non-mine cell's `adj` to its mined-neighbour count, the second loop of the source's placement. */
  function FillAdjacency(w: int, h: int, g: map<Pos, Cell>): (m: map<Pos, Cell>)
    ensures m.Keys == g.Keys
    ensures forall q :: q in g && g[q].mine ==> m[q] == g[q]
    ensures forall q :: q in g && !g[q].mine ==> m[q] == g[q].(adj := AdjCount(w, h, MineSet(g), q))
  {
    map q | q in g :: if g[q].mine then g[q] else g[q].(adj := AdjCount(w, h, MineSet(g), q))
  }

  /** Two grids over the same cells that agree on which cells are mines have the same mine set. */
  lemma MinesAgree(g0: map<Pos, Cell>, g1: map<Pos, Cell>)
    requires g1.Keys == g0.Keys
    requires forall q :: q in g0 ==> g1[q].mine == g0[q].mine
    ensures MineSet(g1) == MineSet(g0)
  {
    assert MineSet(g1) == MineSet(g0);
  }

  /** Two grids over the same cells that agree on which cells are revealed have the same revealed set. */
  lemma RevealedAgree(g0: map<Pos, Cell>, g1: map<Pos, Cell>)
    requires g1.Keys == g0.Keys
    requires forall q :: q in g0 ==> g1[q].revealed == g0[q].revealed
    ensures RevealedSet(g1) == RevealedSet(g0)
  {
    assert RevealedSet(g1) == RevealedSet(g0);
  }

  /** `g1` shows the player what `g0` shows: the same cells, revealed and flagged alike. */
  ghost predicate SameView(g0: map<Pos, Cell>, g1: map<Pos, Cell>) {
    && g1.Keys == g0.Keys
    && forall q :: q in g0 ==> g1[q].revealed == g0[q].revealed && g1[q].flagged == g0[q].flagged
  }

  lemma MarkMinesSet(g: map<Pos, Cell>, sample: set<Pos>)
    requires MineSet(g) == {} && sample <= g.Keys
    ensures MineSet(MarkMines(g, sample)) == sample
  {
    var m := MarkMines(g, sample);
    forall q | q in g ensures m[q].mine <==> q in sample {
      assert q !in MineSet(g);
    }
    assert MineSet(m) == sample;
  }

  lemma MarkMinesView(g: map<Pos, Cell>, sample: set<Pos>)
    ensures SameView(g, MarkMines(g, sample))
  {
  }

  lemma FillAdjacencyMines(w: int, h: int, g: map<Pos, Cell>)
    ensures MineSet(FillAdjacency(w, h, g)) == MineSet(g)
  {
    MinesAgree(g, FillAdjacency(w, h, g));
  }

  lemma FillAdjacencyView(w: int, h: int, g: map<Pos, Cell>)
    ensures SameView(g, FillAdjacency(w, h, g))
  {
  }

  lemma FillAdjacencyCorrect(w: int, h: int, g: map<Pos, Cell>)
    ensures AdjCorrect(w, h, FillAdjacency(w, h, g))
  {
    FillAdjacencyMines(w, h, g);
  }

  /** The grid the source's placement leaves behind. */
  function Placed(w: int, h: int, g: map<Pos, Cell>, sample: set<Pos>): map<Pos, Cell> {
    FillAdjacency(w, h, MarkMines(g, sample))
  }

  lemma PlacedFacts(w: int, h: int, g: map<Pos, Cell>, sample: set<Pos>)
    requires MineSet(g) == {} && sample <= g.Keys
    ensures MineSet(Placed(w, h, g, sample)) == sample
    ensures SameView(g, Placed(w, h, g, sample))
    ensures AdjCorrect(w, h, Placed(w, h, g, sample))
  {
    var m := MarkMines(g, sample);
    MarkMinesSet(g, sample);
    FillAdjacencyMines(w, h, m);
    MarkMinesView(g, sample);
    FillAdjacencyView(w, h, m);
    FillAdjacencyCorrect(w, h, m);
  }

  /** A board whose view is unchanged and whose mines are now placed correctly is valid. */
  lemma PlacementValid(b: Board, g: map<Pos, Cell>)
    requires Valid(b) && !b.minesPlaced
    requires SameView(b.grid, g) && |MineSet(g)| == b.mineTarget && AdjCorrect(b.w, b.h, g)
    ensures Valid(b.(grid := g, minesPlaced := true))
  {
    var b' := b.(grid := g, minesPlaced := true);
    RevealedAgree(b.grid, g);
    assert Shaped(b');
    assert NoFlaggedRevealed(g);
  }

  /** An unplaced valid board has no mines. */
  lemma UnplacedNoMines(b: Board)
    requires Valid(b) && !b.minesPlaced
    ensures MineSet(b.grid) == {}
    ensures b.grid.Keys == Cells(b.w, b.h)
  {
    CoversCells(b);
    assert MineSet(b.grid) == {};
  }

  /** A sample drawn from the unwidened pool avoids the clicked cell's neighbours. */
  lemma SampleAvoidsZone(w: int, h: int, k: int, p: Pos, sample: set<Pos>)
    requires IsSample(sample, Candidates(w, h, k, p), k)
    ensures p !in sample
    ensures |Cells(w, h) - Excluded(w, h, p)| >= k ==> forall q :: q in Neighbors(w, h, p) ==> q !in sample
  {
    if |Cells(w, h) - Excluded(w, h, p)| >= k {
      forall q | q in Neighbors(w, h, p) ensures q !in sample {
        assert q in Excluded(w, h, p);
      }
    }
  }

  /**
   Places mines on the cells `sample` (the outcome of `random.sample` over the
   candidate pool), then computes every non-mine cell's adjacency count and
   marks the mines placed. Nothing the player sees changes.
   */
  function PlaceMinesExcluding(b: Board, safeX: int, safeY: int, sample: set<Pos>): (r: Board)
    requires Valid(b) && !b.minesPlaced && InBounds(b.w, b.h, safeX, safeY)
    requires IsSample(sample, Candidates(b.w, b.h, b.mineTarget, Pos(safeX, safeY)), b.mineTarget)
    ensures Valid(r) && r.minesPlaced
    ensures MineSet(r.grid) == sample
    ensures Pos(safeX, safeY) !in MineSet(r.grid)
    ensures |Cells(b.w, b.h) - Excluded(b.w, b.h, Pos(safeX, safeY))| >= b.mineTarget ==>
              forall q :: q in Neighbors(b.w, b.h, Pos(safeX, safeY)) ==> q !in MineSet(r.grid)
    ensures r == b.(grid := r.grid, minesPlaced := true)
    ensures SameView(b.grid, r.grid)
  {
    var g := Placed(b.w, b.h, b.grid, sample);
    UnplacedNoMines(b);
    CandidatesSuffice(b.w, b.h, b.mineTarget, Pos(safeX, safeY));
    PlacedFacts(b.w, b.h, b.grid, sample);
    PlacementValid(b, g);
    SampleAvoidsZone(b.w, b.h, b.mineTarget, Pos(safeX, safeY), sample);
    b.(grid := g, minesPlaced := true)
  }

  /**
   Flips the flag of an unrevealed in-bounds cell. The second component says
   whether the move was accepted.
   */
  function ToggleFlag(b: Board, x: int, y: int): (r: (Board, bool))
    requires Valid(b)
    ensures Valid(r.0)
    ensures !r.1 <==> !InBounds(b.w, b.h, x, y) || b.grid[Pos(x, y)].revealed
    ensures !r.1 ==> r.0 == b
    ensures r.0.grid.Keys == b.grid.Keys
    ensures r.1 ==> && r.0.grid[Pos(x, y)] == b.grid[Pos(x, y)].(flagged := !b.grid[Pos(x, y)].flagged)
                    && (forall q :: q in b.grid && q != Pos(x, y) ==> r.0.grid[q] == b.grid[q])
                    && r.0 == b.(grid := r.0.grid)
  {
    if !InBounds(b.w, b.h, x, y) then (b, false)
    else
      var c := b.grid[Pos(x, y)];
      if c.revealed then (b, false)
      else
        var g := b.grid[Pos(x, y) := c.(flagged := !c.flagged)];
        FlagOnlyValid(b, Pos(x, y));
        (b.(grid := g), true)
  }

  /** Flipping the flag of an unrevealed cell keeps a board valid. */
  lemma FlagOnlyValid(b: Board, p: Pos)
    requires Valid(b) && p in b.grid && !b.grid[p].revealed
    ensures Valid(b.(grid := b.grid[p := b.grid[p].(flagged := !b.grid[p].flagged)]))
  {
    var g := b.grid[p := b.grid[p].(flagged := !b.grid[p].flagged)];
    var b' := b.(grid := g);
    assert Shaped(b');
    assert RevealedSet(g) == RevealedSet(b.grid);
    assert NoFlaggedRevealed(g);
    if b.minesPlaced {
      AdjCorrectTransfer(b.w, b.h, b.grid, g);
    } else {
      assert Untouched(g);
    }
  }

  /** Toggling the same flag twice restores the board. */
  lemma ToggleFlagTwice(b: Board, x: int, y: int)
    requires Valid(b)
    ensures ToggleFlag(ToggleFlag(b, x, y).0, x, y).0 == b
  {
    var (b1, ok) := ToggleFlag(b, x, y);
    if ok {
      var b2 := ToggleFlag(b1, x, y).0;
      assert b2.grid == b.grid;
    }
  }

  /** The source's win test: as many cells revealed as there are safe cells. */
  function AllSafeRevealed(b: Board): bool {
    b.revealedCount == b.w * b.h - b.mineTarget
  }

  function RevealedMines(g: map<Pos, Cell>): set<Pos> {
    set q | q in g && g[q].revealed && g[q].mine
  }

  /**
   While no mine is revealed, the counter test is exactly "every safe cell is
   revealed". (After a mine hit the counter includes the mine, so the two can
   differ; callers test for a hit first.)
   */
  lemma AllSafeRevealedMeansWon(b: Board)
    requires Valid(b) && RevealedMines(b.grid) == {}
    ensures AllSafeRevealed(b) <==> forall q :: q in b.grid && !b.grid[q].mine ==> b.grid[q].revealed
  {
    CellsCard(b.w, b.h);
    if !b.minesPlaced {
      assert Pos(0, 0) in b.grid;
      assert RevealedSet(b.grid) == {};
    } else {
      CoversCells(b);
      SafeCount(b);
    }
  }

  /** On a placed board with no revealed mine, the revealed cells are among the safe ones, which number `w*h - mineTarget`. */
  lemma SafeCount(b: Board)
    requires b.grid.Keys == Cells(b.w, b.h) && b.w > 0 && b.h > 0
    requires |MineSet(b.grid)| == b.mineTarget && b.revealedCount == |RevealedSet(b.grid)|
    requires RevealedMines(b.grid) == {}
    ensures AllSafeRevealed(b) <==> forall q :: q in b.grid && !b.grid[q].mine ==> b.grid[q].revealed
  {
    CellsCard(b.w, b.h);
    var keys, mines := b.grid.Keys, MineSet(b.grid);
    var safe := keys - mines;
    var rev := RevealedSet(b.grid);
    SubsetCard(mines, keys);
    assert rev <= safe by {
      forall q | q in rev ensures q in safe {
        assert q !in RevealedMines(b.grid);
      }
    }
    SubsetCardEq(rev, safe);
    if forall q :: q in b.grid && !b.grid[q].mine ==> b.grid[q].revealed {
      forall q | q in safe ensures q in rev {
        assert q !in mines;
      }
    } else {
      var q :| q in b.grid && !b.grid[q].mine && !b.grid[q].revealed;
      assert q in safe && q !in rev;
    }
  }

  lemma SubsetCardEq(a: set<Pos>, b: set<Pos>)
    requires a <= b
    ensures |a| == |b| <==> b <= a
  {
    SubsetCard(a, b);
    if |a| == |b| {
      assert |b - a| == 0;
      assert b - a == {};
    }
  }

  /** `g1` differs from `g0` at most in cells turning revealed: mines, flags and counts stay. */
  ghost predicate Grows(g0: map<Pos, Cell>, g1: map<Pos, Cell>) {
    && g1.Keys == g0.Keys
    && forall q :: q in g0 ==>
         && g1[q].mine == g0[q].mine
         && g1[q].flagged == g0[q].flagged
         && g1[q].adj == g0[q].adj
         && (g0[q].revealed ==> g1[q].revealed)
  }

  lemma GrowsMines(g0: map<Pos, Cell>, g1: map<Pos, Cell>)
    requires Grows(g0, g1)
    ensures MineSet(g1) == MineSet(g0)
  {
    MinesAgree(g0, g1);
  }

  lemma GrowsTrans(g0: map<Pos, Cell>, g1: map<Pos, Cell>, g2: map<Pos, Cell>)
    requires Grows(g0, g1) && Grows(g1, g2)
    ensures Grows(g0, g2)
  {
  }

  /** `b1` differs from `b0` at most in cells turning revealed and in the counter. */
  ghost predicate OnlyReveals(b0: Board, b1: Board) {
    && b1.w == b0.w && b1.h == b0.h && b1.mineTarget == b0.mineTarget
    && b1.minesPlaced == b0.minesPlaced
    && Grows(b0.grid, b1.grid)
  }

  /** Revealing cells of a placed board keeps it valid as long as the counter follows and no flagged cell is revealed. */
  lemma OnlyRevealsValid(b0: Board, b1: Board)
    requires Valid(b0) && b0.minesPlaced && OnlyReveals(b0, b1)
    requires b1.revealedCount == |RevealedSet(b1.grid)|
    requires NoFlaggedRevealed(b1.grid)
    ensures Valid(b1)
  {
    AdjCorrectTransfer(b0.w, b0.h, b0.grid, b1.grid);
    assert Shaped(b1);
  }

  /**
   Reveals the unrevealed cell `n` and bumps the counter, the two statements
   the source runs for the clicked cell and for every cell the flood opens.
   */
  function Open(b: Board, n: Pos): (r: Board)
    requires n in b.grid && !b.grid[n].revealed
    ensures r == b.(grid := r.grid, revealedCount := b.revealedCount + 1)
    ensures Grows(b.grid, r.grid)
    ensures r.grid[n].revealed
    ensures forall q :: q in b.grid && q != n ==> r.grid[q] == b.grid[q]
    ensures RevealedSet(r.grid) == RevealedSet(b.grid) + {n}
    ensures |RevealedSet(r.grid)| == |RevealedSet(b.grid)| + 1
    ensures |UnrevealedSet(r.grid)| == |UnrevealedSet(b.grid)| - 1
  {
    RevealOne(b.grid, n);
    b.(grid := b.grid[n := b.grid[n].(revealed := true)], revealedCount := b.revealedCount + 1)
  }

  /** Revealing one unrevealed cell adds exactly it to the revealed set. */
  lemma RevealOne(g: map<Pos, Cell>, n: Pos)
    requires n in g && !g[n].revealed
    ensures RevealedSet(g[n := g[n].(revealed := true)]) == RevealedSet(g) + {n}
    ensures |RevealedSet(g[n := g[n].(revealed := true)])| == |RevealedSet(g)| + 1
    ensures |UnrevealedSet(g[n := g[n].(revealed := true)])| == |UnrevealedSet(g)| - 1
  {
    var g' := g[n := g[n].(revealed := true)];
    assert RevealedSet(g') == RevealedSet(g) + {n};
    assert UnrevealedSet(g') == UnrevealedSet(g) - {n};
  }
}
