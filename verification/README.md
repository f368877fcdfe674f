# Minisweeper in Dafny

This project models the engine of Minisweeper, a small Minesweeper clone, and proves properties about the model. It covers three parts:

- The `Board` class. This includes construction checks, the clipped Moore neighbourhood and lazy mine placement. Placement keeps a safe zone around the first click and falls back to a wider pool on small boards. It also includes adjacency counts, `reveal` with its stack-driven flood fill, `toggle_flag` and the win test.
- The difficulty presets. This is the name canonicaliser, the lookup and the listing.
- The Tk game's event handlers, without the widgets. These are left click, right click, chord (double click) and the counts shown on the status line.

The model is made of pure functional data:

- A board is a `Board` datatype.
- The grid `grid[y][x]` becomes a `map<Pos, Cell>` whose keys are exactly the board's cells.
- The counters the source keeps beside the grid are stated as cardinalities of sets of cells.
- Boards are updated by returning new values.

`random.sample` becomes a parameter `sample`. The model requires only that it is a possible outcome: a set of `mineTarget` cells from the candidate pool. A lemma shows that such a set always exists.

Files:

| file | module | what it holds |
|---|---|---|
| `results.dfy` | `Results` | `Option` and `Result` |
| `geometry.dfy` | `Geometry` | `Pos`, `InBounds`, `Cells`, `Neighbors` in scan order, and counting helpers |
| `board.dfy` | `Boards` | `Cell`, `Board`, the validity invariant, construction, placement, flags and the win test |
| `reveal.dfy` | `Reveals` | `reveal`, the flood fill, and what a reveal leaves behind (`Outcome`) |
| `session.dfy` | `Sessions` | the game session, `game_over`, the three click handlers and the status counts |
| `difficulty.dfy` | `Difficulties` | the preset table, `normalize_name`, `get_difficulty` and `list_difficulties` |

`Boards.Valid` is the board invariant that every operation preserves. It holds that:

- the constructor's constraints hold;
- the grid covers exactly the board;
- `revealedCount` is the number of revealed cells;
- no cell is both flagged and revealed;
- before placement, no cell is a mine or revealed, and every `adj` is 0;
- after placement, exactly `mineTarget` cells are mines, and every safe cell's `adj` is its number of mined neighbours.

`Sessions.Live` adds the session invariant: while the game is not over, no mine is revealed and the win test is false.

A revealed mine is counted: `reveal` increments `revealed_count` before it tests for a mine (minisweeper.py:91-93), and the model does the same. `Boards.AllSafeRevealedMeansWon` shows that the counter test still means every safe cell is revealed as long as no mine is revealed. The handlers test for a hit before they test for a win.

## Model

| member | source | states |
|---|---|---|
| Geometry.Cells | minisweeper.py:45-46 | a position belongs to the cell set exactly when `in_bounds` accepts it |
| Geometry.CellsCard | minisweeper.py:41 | a `w × h` board has exactly `w*h` cells |
| Geometry.Neighbors | minisweeper.py:48-55 | the scan yields at most 8 distinct cells; a cell is yielded exactly when it is in bounds, differs from the centre, and is at most one step away in each axis |
| Geometry.NeighborsSymmetric | minisweeper.py:48-55 | `q` is a neighbour of `p` exactly when `p` is a neighbour of `q` |
| Geometry.CountInDistinct | minisweeper.py:74 | counting the scanned cells that lie in a set gives the size of the intersection, because the scan has no repeats |
| Boards.NewBoard | minisweeper.py:32-43 | construction fails with the dimension error exactly when a side is not positive; it fails with the mine-count error exactly when the sides are positive and mines is outside `1..w*h-1`; on success the board is valid, every cell is default, nothing is placed and the count is 0 |
| Boards.AdjCount | minisweeper.py:74 | an adjacency count is at most 8 |
| Boards.AdjCountIsMinedNeighbours | minisweeper.py:74 | the scan-based count equals the number of mined cells that are in bounds and adjacent |
| Boards.CandidatesSuffice | minisweeper.py:57-66 | on a constructible board the pool (with the fallback when needed) holds at least `mine_target` cells; it never holds the clicked cell; it holds only board cells |
| Boards.CandidatesFair | minisweeper.py:60-63 | when at least nine cells beyond the mines exist, the pool shares no cell with the clicked cell and its neighbours |
| Boards.SampleExists | minisweeper.py:66 | a set of `k` distinct cells can be drawn from any pool of at least `k` cells |
| Boards.PlacementPossible | minisweeper.py:63-66 | `random.sample` always has a valid outcome on a valid board |
| Boards.SampleAvoidsZone | minisweeper.py:61-65 | a sample never contains the clicked cell; if the unwidened pool was large enough, it avoids every neighbour too |
| Boards.MarkMinesSet | minisweeper.py:67-68 | after the first placement loop, the mined cells are exactly the sample |
| Boards.FillAdjacencyCorrect | minisweeper.py:69-74 | after the second loop, every non-mine cell's `adj` is its mined-neighbour count |
| Boards.PlaceMinesExcluding | minisweeper.py:57-75 | placement leaves a valid board with mines placed; the mines are exactly the sample and exclude the clicked cell; the neighbours are excluded too when the pool was not widened; nothing the player sees changes |
| Boards.ToggleFlag | minisweeper.py:115-122 | the move is rejected exactly for an out-of-bounds or revealed cell, and a rejection changes nothing; an accepted move flips only that cell's flag; validity is kept |
| Boards.FlagOnlyValid | minisweeper.py:119-121 | flipping the flag of an unrevealed cell keeps the board valid |
| Boards.ToggleFlagTwice | minisweeper.py:115-122 | toggling the same cell twice restores the board |
| Boards.AllSafeRevealedMeansWon | minisweeper.py:124-126 | with no mine revealed, the counter test holds exactly when every safe cell is revealed |
| Boards.Open | minisweeper.py:91-92 | opening a cell adds exactly that cell to the revealed set and one to the counter; nothing else changes |
| Boards.RevealedMeansPlaced | minisweeper.py:89-91 | on a valid board, any revealed cell means the mines are already placed |
| Reveals.FloodFill | minisweeper.py:95-113 | the flood keeps the board valid and only reveals cells; it opens no mine and no flagged cell. It is complete: every blank cell it expands has no neighbour left that it would open. It is sound: every opened cell is reached from the start by a path of adjacent steps through expanded blank cells |
| Reveals.FloodLoop | minisweeper.py:99-100 | the outer loop ends (measure: unrevealed cells plus stack length) with the flood invariant, an empty stack, every expanded cell settled, and a parent trace for every opened cell |
| Reveals.ScanNeighbours | minisweeper.py:101-112 | one pass over a popped cell's neighbours keeps the invariants, settles that cell, and does not raise the termination measure |
| Reveals.OpenKeepsInv | minisweeper.py:103-112 | opening a safe, unflagged, hidden cell, and pushing it when its count is zero, keeps the flood invariant |
| Reveals.OpenKeepsTraced | minisweeper.py:101-112 | a cell opened from an expanded neighbour extends the parent trace with a higher rank |
| Reveals.Trace | minisweeper.py:97-112 | following parents from an opened cell gives a flood path from the start that ends at that cell |
| Reveals.OpenAndFlood | minisweeper.py:91-113 | on a placed board, a hidden cell is opened and flooded when it is blank; the result satisfies `Outcome`; the mines are unchanged |
| Reveals.RevealHidden | minisweeper.py:89-113 | the first accepted reveal places mines from the sample and never hits; later reveals keep the mines; the result satisfies `Outcome` |
| Reveals.Reveal | minisweeper.py:77-113 | `ok` holds exactly for an in-bounds, unflagged cell; a rejected move or an already-revealed cell changes nothing and does not hit; a hidden cell gives `Outcome` (hit exactly when the cell is a mine; a hit or a numbered cell opens only itself; no other opened cell is a mine; a flood that is complete and sound); placement happens exactly on the first accepted reveal; validity is kept |
| Sessions.NewGame | game.py:129-137 | a failed construction leaves the session as it was; a successful one makes the game live again with exactly the constructor's board: the requested size and mine target, nothing placed, every cell default, so no cell is revealed or flagged |
| Sessions.OutcomeMines | minisweeper.py:91-106 | starting with no revealed mine, after a reveal the revealed mines are the clicked cell on a hit and none otherwise |
| Sessions.LeftClick | game.py:176-197 | when the game is over or there is no board, nothing changes. Otherwise: a hit ends the game; without a hit, the game ends exactly when the win test holds, and then every safe cell is revealed; a flagged or revealed cell leaves the session unchanged; the first click never hits; the chord fallback is unreachable; the session invariant is kept |
| Sessions.RightClick | game.py:199-204 | when the game is over or there is no board, nothing changes; otherwise the board changes only through `toggle_flag`; the session invariant is kept |
| Sessions.CountFlagsAround | game.py:212-215 | the loop counts exactly the flagged neighbours of the cell |
| Sessions.Chord | game.py:206-235 | when the game is over or there is no board, nothing changes. Nothing happens either unless the cell is revealed, its count is positive and equals the flags around it. Otherwise each reveal targets a distinct neighbour that is hidden at that moment; every reveal but the last is not a hit; after a hit the game is over and the last target is the only revealed mine; without a hit every neighbour ends revealed or flagged, and the game ends exactly when the win test holds. Mines never move and the player's view only grows |
| Sessions.FlagCount | game.py:277-282 | the row-by-row scan counts exactly the flagged cells |
| Sessions.StatusCounts | game.py:277-283 | the flag count is the number of flagged cells; the remaining count is never negative and equals `mine_target − flags` unless that is negative, in which case it is 0 |
| Difficulties.WordsShape | difficulty.py:40 | `split()` yields non-empty words drawn from the input, with no whitespace in them |
| Difficulties.WordsSplit | difficulty.py:40 | a whitespace character splits the words of a string in two |
| Difficulties.WordsJoin | difficulty.py:40 | splitting undoes joining non-empty, whitespace-free words with single spaces |
| Difficulties.NormalizeCanonical | difficulty.py:37-41 | the canonical name has no `_`, no `-` and no upper-case letter; its only whitespace is single spaces between words, none at either end |
| Difficulties.NormalizeIdempotent | difficulty.py:37-41 | normalising a normalised name changes nothing |
| Difficulties.NormalizeCaseAndSeparators | difficulty.py:38-39 | names that differ only in letter case or in `_`/`-`/space normalise alike |
| Difficulties.NormalizeCollapsesRuns | difficulty.py:38-40 | any non-empty run of whitespace, `_` and `-` inside a name counts as one space |
| Difficulties.NormalizeStrips | difficulty.py:38-40 | separators around a name are dropped |
| Difficulties.GetDifficulty | difficulty.py:44-48 | the lookup succeeds exactly when the normalised name is a key, returns that preset (whose name is the key), and otherwise fails with the name asked for and the sorted key list |
| Difficulties.LookupInsensitive | difficulty.py:44-47 | names that normalise alike get the same result |
| Difficulties.ListDifficulties | difficulty.py:51-52 | the listing has the table's keys and values |
| Difficulties.SortedNamesSorted | difficulty.py:47 | the names in the error are the table's keys in ascending code-point order |
| Difficulties.KeysCanonical | difficulty.py:29-34 | every key of the table is its own normal form |
| Difficulties.PresetsFound | difficulty.py:29-48 | every preset's name equals its key, and looking it up by that name finds it |
| Difficulties.PresetsConstructible | difficulty.py:29-34 | every preset passes the board constructor's checks |

## Left out

- `random.sample` and `random.seed`: the sample is a parameter, constrained only to be a possible outcome.
- Tk: widgets, `_build_grid`, `_refresh_cells`, `_render_safe_cell`, `_reveal_all`, the colours and `messagebox`. `new_game_from_inputs` reads the Tk variables (or looks the chosen preset up with `get_difficulty`) and calls `new_game`. `reset_game` calls `new_game` with the current board's width, height and mine target. `on_difficulty_changed` looks the preset up and writes its dimensions into the spinbox variables. None of the three is modelled beyond `new_game` and `get_difficulty`, which are.
- `argparse`, `parse_args`, `print_help`, both `main` loops and `Board.render`: these are terminal input and output and string formatting.
- `_update_status` when there is no board, its `Playing`/game-over word and its string formatting: only the two counts are modelled.
- The `visited` set of the flood fill (minisweeper.py:98, 108-109) is read only to guard its own update (minisweeper.py:108). Nothing else consults it, so it does not change behaviour and is not modelled.
- Sessions.LeftClick: requires the clicked cell to be on the board when the game is live. The handler reads `grid[y][x]` before `reveal` checks bounds, and Python would wrap negative indices. Every button is bound to an in-bounds cell.
- Sessions.Chord: requires the cell to be on the board when the game is live, for the same reason. Its contract states that each call targets a neighbour that is hidden at that moment, but not that the calls follow the scan order.
- The chord fallback of `on_left_click` (game.py:181-184) is not modelled as behaviour. `Sessions.LeftClick` proves the branch unreachable: a rejected reveal means a flagged cell, and a flagged cell is never revealed.
- The text of the `ValueError` messages: construction errors are the two `BoardError` values, and the unknown-name error carries the name and the sorted key list as data rather than a formatted string.
- Difficulties.NormalizeName: case folding covers only `A`–`Z`, and whitespace covers only the ASCII characters that Python's `str.split` treats as whitespace (tab to carriage return, the four separators 0x1C–0x1F, and space). Python's full Unicode case mapping and Unicode whitespace are not modelled.
