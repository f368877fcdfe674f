/**
 The game session of the Tk front end with the widgets stripped away: an
 optional board and the `game_over` flag, and the handlers for a left click,
 a right click and a chord (double click), together with the flag and
 remaining-mine counts of the status line.

 The session is a small state machine: while the game is playing no mine is
 revealed and the win test is false; a mine hit or the win test moves it to
 over, after which every handler is a no-op until a new game starts.
 */
module Sessions {
  import opened Geometry
  import opened Results
  import opened Boards
  import opened Reveals

  datatype Session = Session(board: Option<Board>, gameOver: bool)

  /** The handlers return at once: the game is over or there is no board. */
  predicate Gated(s: Session) {
    s.gameOver || s.board.None?
  }

  /** The session invariant: the board is valid, and while playing no mine is revealed and the game is not yet won. */
  ghost predicate Live(s: Session) {
    s.board.Some? ==>
      && Valid(s.board.value)
      && (!s.gameOver ==> RevealedMines(s.board.value.grid) == {} && !AllSafeRevealed(s.board.value))
  }

  /** Every safe cell of `b` is revealed. */
  ghost predicate Won(b: Board) {
    forall q :: q in b.grid && !b.grid[q].mine ==> b.grid[q].revealed
  }

  /** Starts a new game, or leaves the session as it was when the board cannot be built. */
  function NewGame(s: Session, width: int, height: int, mines: int): (s': Session)
    requires Live(s)
    ensures Live(s')
    ensures NewBoard(width, height, mines).Err? ==> s' == s
    ensures NewBoard(width, height, mines).Ok? ==>
              && !s'.gameOver && s'.board.Some?
              && s'.board.value.w == width && s'.board.value.h == height
              && s'.board.value.mineTarget == mines
              && !s'.board.value.minesPlaced && RevealedSet(s'.board.value.grid) == {}
    ensures NewBoard(width, height, mines).Ok? ==>
              && s'.board == Some(NewBoard(width, height, mines).value)
              && (forall q :: q in s'.board.value.grid ==> s'.board.value.grid[q] == Fresh)
              && FlagSet(s'.board.value.grid) == {}
  {
    match NewBoard(width, height, mines)
    case Err(_) => s
    case Ok(b) =>
      assert RevealedMines(b.grid) == {} by {
        assert forall q :: q in RevealedMines(b.grid) ==> q in RevealedSet(b.grid);
      }
      Session(Some(b), false)
  }

  /** Opening a cell with no revealed mine before: the revealed mines afterwards are the clicked cell on a hit, none otherwise. */
  lemma OutcomeMines(b: Board, r: Board, p: Pos, hit: bool)
    requires Valid(b) && Outcome(b, r, p, hit) && RevealedMines(b.grid) == {}
    requires b.minesPlaced ==> MineSet(r.grid) == MineSet(b.grid)
    ensures RevealedMines(r.grid) == if hit then {p} else {}
  {
    forall q | q in r.grid && q != p && r.grid[q].revealed
      ensures !r.grid[q].mine
    {
      if b.grid[q].revealed {
        assert b.minesPlaced;
        assert q !in RevealedMines(b.grid);
        assert q !in MineSet(b.grid);
      } else {
        assert Opened(b.grid, r.grid, q);
      }
    }
    if hit {
      assert p in RevealedMines(r.grid);
    }
  }

  /**
   `on_left_click`: reveals the cell; a hit ends the game, and otherwise the
   game ends exactly when the win test holds. The source's fallback to a
   chord when the reveal is rejected on a revealed safe cell cannot happen: a
   rejected reveal means a flagged cell, which is never revealed.
   */
  method LeftClick(s: Session, x: int, y: int, sample: set<Pos>) returns (s': Session, hit: bool)
    requires Live(s)
    requires !Gated(s) ==> InBounds(s.board.value.w, s.board.value.h, x, y)
    requires !Gated(s) && NeedsPlacement(s.board.value, x, y) ==>
               IsSample(sample, Candidates(s.board.value.w, s.board.value.h, s.board.value.mineTarget, Pos(x, y)), s.board.value.mineTarget)
    ensures Live(s')
    ensures hit ==> s'.gameOver
    ensures Gated(s) ==> s' == s && !hit
    ensures !Gated(s) ==> s'.board.Some? && s'.board.value.grid.Keys == s.board.value.grid.Keys
    ensures !Gated(s) ==> (s'.gameOver <==> hit || AllSafeRevealed(s'.board.value))
    ensures !Gated(s) && (s.board.value.grid[Pos(x, y)].flagged || s.board.value.grid[Pos(x, y)].revealed) ==> s' == s && !hit
    ensures !Gated(s) && !s.board.value.grid[Pos(x, y)].flagged && !s.board.value.grid[Pos(x, y)].revealed ==>
              Outcome(s.board.value, s'.board.value, Pos(x, y), hit)
    ensures !Gated(s) && NeedsPlacement(s.board.value, x, y) ==> !hit && MineSet(s'.board.value.grid) == sample
    ensures !Gated(s) ==> RevealedMines(s'.board.value.grid) == if hit then {Pos(x, y)} else {}
    ensures !Gated(s) && s'.gameOver && !hit ==> Won(s'.board.value)
  {
    if Gated(s) {
      return s, false;
    }
    var b := s.board.value;
    var p := Pos(x, y);
    ValidInBounds(b, x, y);
    var r, ok;
    r, ok, hit := Reveal(b, x, y, sample);
    var cell := r.grid[p];
    if !ok && cell.revealed && !cell.mine {
      assert false;
    }
    if ok && !b.grid[p].revealed {
      OutcomeMines(b, r, p, hit);
    }
    if hit {
      return Session(Some(r), true), true;
    }
    if AllSafeRevealed(r) {
      s' := Session(Some(r), true);
      AllSafeRevealedMeansWon(r);
    } else {
      s' := Session(Some(r), false);
    }
  }

  /** `on_right_click`: on a playing board, the board changes only through `toggle_flag`. */
  function RightClick(s: Session, x: int, y: int): (s': Session)
    requires Live(s)
    ensures Live(s')
    ensures s'.gameOver == s.gameOver
    ensures Gated(s) ==> s' == s
    ensures !Gated(s) ==> s'.board == Some(ToggleFlag(s.board.value, x, y).0)
  {
    if Gated(s) then s
    else
      var b := s.board.value;
      var (b', _) := ToggleFlag(b, x, y);
      FlagKeepsRevealed(b, b');
      Session(Some(b'), s.gameOver)
  }

  /** Toggling a flag changes neither which cells are revealed nor which are mines. */
  lemma FlagKeepsRevealed(b: Board, b': Board)
    requires b'.grid.Keys == b.grid.Keys
    requires forall q :: q in b.grid ==> b'.grid[q].revealed == b.grid[q].revealed && b'.grid[q].mine == b.grid[q].mine
    ensures RevealedMines(b'.grid) == RevealedMines(b.grid)
  {
    assert RevealedMines(b'.grid) == RevealedMines(b.grid);
  }

  /** The flagged neighbours of `p`. */
  ghost function FlaggedAround(b: Board, p: Pos): set<Pos> {
    set q | q in FlagSet(b.grid) && InBounds(b.w, b.h, q.x, q.y) && Adjacent(p, q)
  }

  /** The first loop of `on_chord`: counts the flagged cells of the neighbour scan of `p`. */
  method CountFlagsAround(b: Board, p: Pos) returns (flagged: int)
    requires Covers(b)
    ensures flagged == CountIn(Neighbors(b.w, b.h, p), FlagSet(b.grid))
    ensures flagged == |FlaggedAround(b, p)|
  {
    var ns := Neighbors(b.w, b.h, p);
    ghost var flags := FlagSet(b.grid);
    flagged := 0;
    var i := 0;
    while i < |ns|
      invariant 0 <= i <= |ns|
      invariant flagged == CountIn(ns[..i], flags)
    {
      CountInStep(ns, i, flags);
      assert ns[i] in b.grid;
      assert b.grid[ns[i]].flagged <==> ns[i] in flags;
      if b.grid[ns[i]].flagged {
        flagged := flagged + 1;
      }
      i := i + 1;
    }
    assert ns[..|ns|] == ns;
    FlagsAroundCount(b, p);
  }

  /** Counting the flagged cells of the scan is counting the flagged neighbours. */
  lemma FlagsAroundCount(b: Board, p: Pos)
    ensures CountIn(Neighbors(b.w, b.h, p), FlagSet(b.grid)) == |FlaggedAround(b, p)|
  {
    var ns := Neighbors(b.w, b.h, p);
    CountInDistinct(ns, FlagSet(b.grid));
    assert (set q | q in ns && q in FlagSet(b.grid)) == FlaggedAround(b, p);
  }

  /** The chord is armed on `p`: a revealed number with exactly as many flags around it as its count. */
  predicate ChordReady(b: Board, p: Pos)
    requires p in b.grid
  {
    && b.grid[p].revealed && b.grid[p].adj > 0
    && CountIn(Neighbors(b.w, b.h, p), FlagSet(b.grid)) == b.grid[p].adj
  }

  /** `q` is on the board, neither flagged nor revealed. */
  ghost predicate Hidden(b: Board, q: Pos) {
    q in b.grid && !b.grid[q].flagged && !b.grid[q].revealed
  }

  /** Each cell passed to `reveal` is one of `ns`, and was hidden on the board just before its call. */
  ghost predicate CallsOk(ns: seq<Pos>, calls: seq<Pos>, before: seq<Board>) {
    && |before| == |calls|
    && forall k :: 0 <= k < |calls| ==> calls[k] in ns && Hidden(before[k], calls[k])
  }

  /**
   The reveals of a chord as a chain of boards: `before[k]` is the board the
   `k`-th reveal (of `calls[k]`) starts from, the first is `b`, each reveal
   but the last leads without a hit to the next one's board, and the last
   leads to `last` with outcome `hit`.
   */
  ghost predicate Chain(b: Board, calls: seq<Pos>, before: seq<Board>, last: Board, hit: bool) {
    && |before| == |calls|
    && (|calls| == 0 ==> last == b && !hit)
    && (|calls| > 0 ==> before[0] == b && Outcome(before[|calls| - 1], last, calls[|calls| - 1], hit))
    && forall k :: 0 <= k < |calls| - 1 ==> Outcome(before[k], before[k + 1], calls[k], false)
  }

  /** What the chord loop keeps of the current board `cur`, starting from `b`, once `ns[..i]` are scanned. */
  ghost predicate ChordInv(b: Board, ns: seq<Pos>, i: int, cur: Board, calls: seq<Pos>, before: seq<Board>) {
    && 0 <= i <= |ns|
    && Valid(cur) && cur.minesPlaced
    && cur.w == b.w && cur.h == b.h && cur.mineTarget == b.mineTarget
    && ViewGrows(b.grid, cur.grid) && MineSet(cur.grid) == MineSet(b.grid)
    && RevealedMines(cur.grid) == {}
    && (forall j :: 0 <= j < i ==> ns[j] in cur.grid && (cur.grid[ns[j]].revealed || cur.grid[ns[j]].flagged))
    && CallsOk(ns, calls, before) && Distinct(calls) && Chain(b, calls, before, cur, false)
    && (forall k :: 0 <= k < |calls| ==> calls[k] in cur.grid && cur.grid[calls[k]].revealed)
  }

  /** The view only grows and the mines stay, from `b` through `cur` to `r`. */
  lemma ViewGrowsTrans(b: Board, cur: Board, r: Board)
    requires ViewGrows(b.grid, cur.grid) && ViewGrows(cur.grid, r.grid)
    ensures ViewGrows(b.grid, r.grid)
  {
  }

  /** A chord reveal of the hidden neighbour `ns[i]`. */
  lemma ChordStep(b: Board, ns: seq<Pos>, i: int, cur: Board, calls: seq<Pos>, before: seq<Board>, r: Board, hit: bool)
    requires ChordInv(b, ns, i, cur, calls, before) && i < |ns| && Hidden(cur, ns[i])
    requires Outcome(cur, r, ns[i], hit) && MineSet(r.grid) == MineSet(cur.grid)
    ensures ViewGrows(b.grid, r.grid) && MineSet(r.grid) == MineSet(b.grid)
    ensures RevealedMines(r.grid) == if hit then {ns[i]} else {}
    ensures CallsOk(ns, calls + [ns[i]], before + [cur]) && Distinct(calls + [ns[i]])
    ensures Chain(b, calls + [ns[i]], before + [cur], r, hit)
    ensures !hit ==> ChordInv(b, ns, i + 1, r, calls + [ns[i]], before + [cur])
  {
    var n := ns[i];
    OutcomeMines(cur, r, n, hit);
    ViewGrowsTrans(b, cur, r);
    var calls', before' := calls + [n], before + [cur];
    CallsExtend(ns, calls, before, cur, n);
    CallsRevealed(calls, cur, n, r);
    ChainExtend(b, calls, before, cur, n, r, hit);
  }

  /** The cells passed to `reveal` so far are revealed, so the next one, still hidden, is new; afterwards all are revealed. */
  lemma CallsRevealed(calls: seq<Pos>, cur: Board, n: Pos, r: Board)
    requires Distinct(calls) && Hidden(cur, n) && ViewGrows(cur.grid, r.grid) && r.grid[n].revealed
    requires forall k :: 0 <= k < |calls| ==> calls[k] in cur.grid && cur.grid[calls[k]].revealed
    ensures Distinct(calls + [n])
    ensures forall k :: 0 <= k < |calls + [n]| ==> (calls + [n])[k] in r.grid && r.grid[(calls + [n])[k]].revealed
  {
    var calls' := calls + [n];
    forall k | 0 <= k < |calls'| ensures calls'[k] in r.grid && r.grid[calls'[k]].revealed {
      if k < |calls| {
        assert calls'[k] == calls[k];
      }
    }
    forall i, j | 0 <= i < j < |calls'| ensures calls'[i] != calls'[j] {
      if j == |calls| {
        assert cur.grid[calls[i]].revealed;
      } else {
        assert calls'[i] == calls[i] && calls'[j] == calls[j];
      }
    }
  }

  lemma CallsExtend(ns: seq<Pos>, calls: seq<Pos>, before: seq<Board>, cur: Board, n: Pos)
    requires CallsOk(ns, calls, before) && n in ns && Hidden(cur, n)
    ensures CallsOk(ns, calls + [n], before + [cur])
  {
    var calls', before' := calls + [n], before + [cur];
    forall k | 0 <= k < |calls'| ensures calls'[k] in ns && Hidden(before'[k], calls'[k]) {
      if k < |calls| {
        assert calls'[k] == calls[k] && before'[k] == before[k];
      }
    }
  }

  lemma ChainExtend(b: Board, calls: seq<Pos>, before: seq<Board>, cur: Board, n: Pos, r: Board, hit: bool)
    requires Chain(b, calls, before, cur, false) && Outcome(cur, r, n, hit)
    ensures Chain(b, calls + [n], before + [cur], r, hit)
  {
    var calls', before' := calls + [n], before + [cur];
    forall k | 0 <= k < |calls'| - 1 ensures Outcome(before'[k], before'[k + 1], calls'[k], false) {
      if k < |calls| - 1 {
        assert before'[k] == before[k] && before'[k + 1] == before[k + 1] && calls'[k] == calls[k];
      } else {
        assert before'[k] == before[|calls| - 1] && before'[k + 1] == cur && calls'[k] == calls[|calls| - 1];
      }
    }
  }

  /** Skipping a neighbour that is flagged or revealed. */
  lemma ChordSkip(b: Board, ns: seq<Pos>, i: int, cur: Board, calls: seq<Pos>, before: seq<Board>)
    requires ChordInv(b, ns, i, cur, calls, before) && i < |ns| && ns[i] in cur.grid && !Hidden(cur, ns[i])
    ensures ChordInv(b, ns, i + 1, cur, calls, before)
  {
  }

  /**
   `on_chord`: on a revealed number whose count equals the flags around it,
   reveals in scan order every neighbour that is, at that moment, neither
   flagged nor revealed, stopping at the first mine hit; without a hit the game
   ends exactly when the win test holds. `calls` lists the cells passed to
   `reveal`, and `before[k]` is the board just before the `k`-th of them.
   */
  method Chord(s: Session, x: int, y: int) returns (s': Session, hit: bool, ghost calls: seq<Pos>, ghost before: seq<Board>)
    requires Live(s)
    requires !Gated(s) ==> InBounds(s.board.value.w, s.board.value.h, x, y)
    ensures Live(s')
    ensures hit ==> s'.gameOver
    ensures Gated(s) ==> s' == s && !hit && calls == []
    ensures !Gated(s) ==> s'.board.Some? && ViewGrows(s.board.value.grid, s'.board.value.grid)
    ensures !Gated(s) ==> MineSet(s'.board.value.grid) == MineSet(s.board.value.grid)
    ensures !Gated(s) && !ChordReady(s.board.value, Pos(x, y)) ==> s' == s && !hit && calls == []
    ensures !Gated(s) ==> (s'.gameOver <==> hit || AllSafeRevealed(s'.board.value))
    ensures Distinct(calls)
    ensures Gated(s) || CallsOk(Neighbors(s.board.value.w, s.board.value.h, Pos(x, y)), calls, before)
    ensures Gated(s) || Chain(s.board.value, calls, before, s'.board.value, hit)
    ensures !Gated(s) && hit ==> |calls| > 0 && RevealedMines(s'.board.value.grid) == {calls[|calls| - 1]}
    ensures !Gated(s) && !hit ==> RevealedMines(s'.board.value.grid) == {}
    ensures !Gated(s) && ChordReady(s.board.value, Pos(x, y)) && !hit ==>
              forall q :: q in Neighbors(s.board.value.w, s.board.value.h, Pos(x, y)) ==>
                s'.board.value.grid[q].revealed || s'.board.value.grid[q].flagged
    ensures !Gated(s) && s'.gameOver && !hit ==> Won(s'.board.value)
  {
    calls, before := [], [];
    if Gated(s) {
      return s, false, calls, before;
    }
    var b := s.board.value;
    var p := Pos(x, y);
    ValidInBounds(b, x, y);
    var c := b.grid[p];
    if !c.revealed || c.adj <= 0 {
      return s, false, calls, before;
    }
    var flagged := CountFlagsAround(b, p);
    if flagged != c.adj {
      return s, false, calls, before;
    }
    RevealedMeansPlaced(b, p);
    var ns := Neighbors(b.w, b.h, p);
    var cur := b;
    var i := 0;
    while i < |ns|
      invariant ChordInv(b, ns, i, cur, calls, before)
    {
      var n := ns[i];
      assert n in b.grid;
      var nc := cur.grid[n];
      if !nc.flagged && !nc.revealed {
        var r, ok, h := Reveal(cur, n.x, n.y, {});
        ChordStep(b, ns, i, cur, calls, before, r, h);
        calls, before := calls + [n], before + [cur];
        if h {
          return Session(Some(r), true), true, calls, before;
        }
        cur := r;
      } else {
        ChordSkip(b, ns, i, cur, calls, before);
      }
      i := i + 1;
    }
    if AllSafeRevealed(cur) {
      s' := Session(Some(cur), true);
      AllSafeRevealedMeansWon(cur);
    } else {
      s' := Session(Some(cur), false);
    }
    hit := false;
  }

  /** The flagged cells the status scan has passed: every row above `y`, and the columns left of `x` in row `y`. */
  ghost function FlagsBefore(b: Board, x: int, y: int): set<Pos> {
    set q | q in FlagSet(b.grid) && (q.y < y || (q.y == y && q.x < x))
  }

  lemma FlagsStep(b: Board, x: int, y: int)
    requires Covers(b) && InBounds(b.w, b.h, x, y)
    ensures Pos(x, y) !in FlagsBefore(b, x, y)
    ensures FlagsBefore(b, x + 1, y) == FlagsBefore(b, x, y) + if b.grid[Pos(x, y)].flagged then {Pos(x, y)} else {}
  {
  }

  lemma FlagsRow(b: Board, y: int)
    requires Covers(b)
    ensures FlagsBefore(b, b.w, y) == FlagsBefore(b, 0, y + 1)
  {
  }

  lemma FlagsAll(b: Board)
    requires Covers(b)
    ensures FlagsBefore(b, 0, b.h) == FlagSet(b.grid)
  {
  }

  /** The flag count of the status line: the source scans the grid row by row. */
  method FlagCount(b: Board) returns (flags: int)
    requires Shaped(b)
    ensures flags == |FlagSet(b.grid)|
  {
    flags := 0;
    var y := 0;
    while y < b.h
      invariant 0 <= y <= b.h
      invariant flags == |FlagsBefore(b, 0, y)|
    {
      var x := 0;
      while x < b.w
        invariant 0 <= x <= b.w
        invariant flags == |FlagsBefore(b, x, y)|
      {
        FlagsStep(b, x, y);
        if b.grid[Pos(x, y)].flagged {
          flags := flags + 1;
        }
        x := x + 1;
      }
      FlagsRow(b, y);
      y := y + 1;
    }
    FlagsAll(b);
  }

  /**
   The counts of the status line: the flags on the board, and the mines not
   yet matched by a flag, never below zero.
   */
  method StatusCounts(s: Session) returns (flags: int, remaining: int)
    requires Live(s) && s.board.Some?
    ensures flags == |FlagSet(s.board.value.grid)|
    ensures remaining >= 0 && remaining >= s.board.value.mineTarget - flags
    ensures remaining == 0 || remaining + flags == s.board.value.mineTarget
  {
    var b := s.board.value;
    flags := FlagCount(b);
    remaining := if b.mineTarget - flags > 0 then b.mineTarget - flags else 0;
  }
}
