# ChessVar rule engine, modelled in Dafny

This project models the rule engine of `ChessVar`, a reduced chess variant.
Each side has a king, two bishops, two knights and a rook. The first king to
reach the far row (row 7) wins. The race is scored after Black's reply, so a
tie is possible. A move that would leave either king on a square the other
side threatens is refused.

The model covers:

- the square numbering: label `"a1"` is index 0 and `"h8"` is index 63, with
  the lookup list built by the constructor;
- the four move generators: rays for the rook and bishop, and offset tables
  with a column filter for the knight and king;
- the rebuild of every cached move list and of the two threat sets
  (`update_moves`);
- the check test (`check_checker`);
- the move operation with its guards, tentative move, check test and revert
  (`make_move`);
- the turn/terminal transition (`game_update`);
- the constructor with its fixed opening layout.

## Modules

- `squares.dfy`: `Options` (an option type) and `Squares`.
  - `Squares` has the board index, the label lookup and a reference decoder
    for labels.
- `pieces.dfy`: `Pieces`, which holds colours, kinds and pieces. A piece
  carries the index of the square it stands on.
- `moves.dfy`: `Moves`, the four generators and their geometry.
  - Rays stop at the first occupied square and keep it.
  - The knight and king use offset lists with a per-column filter and a
    bounds check.
- `game.dfy`: `Game`, the engine state and its operations.
  - The state holds the board, keyed by square index, and the cached move
    lists, keyed the same way.
  - It also holds the turn, the game state and the two threat sets.
  - Operations: `Refresh` (`update_moves`), `InCheck` (`check_checker`),
    `GameUpdate`, `MakeMove`, the constructor `Initial`, and `Play`, which
    folds `MakeMove` over a sequence of moves.
- `rules.dfy`: `Rules`, what one call of `MakeMove` promises: early
  rejections, the check-test revert, the accepted move and the turn table.
- `opening.dfy`: `Opening`, which shows that neither king is attacked in the
  opening layout, whatever occupancy the caches were built against.
- `invariant.dfy`: `Invariant`, the state invariant. Every call keeps it, so
  every state reachable from the constructor has it.
- `scenarios.dfy`: `Scenarios`, concrete opening moves that show what the
  constructor's caches do.

## Modelling decisions

- **Board keys.** The engine keys its board by label string. The model keys
  it by square index instead. The two are in bijection: `Squares.LabelRoundTrip`
  and `Squares.IndexOfIsParse` prove it. A label the engine does not know
  has no index (`IndexOf` returns `None`), so it fails the same guard.
- **Cached move lists.** Each piece's cached list is kept in a separate map
  keyed by square. `Refresh` regenerates all of them from the occupied
  indices, as `update_moves` does at line 307.
- **The constructor's caches.** The constructor passes the board's label
  keys where square indices are expected (line 261), and no index is ever
  equal to a label. So the initial caches are generated as for an empty
  board: the occupancy is `{}`. The rook on a2 therefore starts with all of
  row 2 in its list, and the move a2-e2 through its own pieces is accepted
  (`Scenarios.RookPassesThroughOpening`).
- **Finding the kings.** `game_update` reads the first king of each colour
  with `[0]`. The model states "some king of that colour is on row 7".
  `Invariant.KingHomeIsKingRow` shows this is the same test whenever there is
  exactly one king per colour, and every reachable state has exactly one
  (`Invariant.ReachableStates`).

The model follows the code where it behaves unexpectedly:

- **Knight wrap.** The comment at line 178 says the column filter removes
  the moves that extend beyond the left or right board edge, but the filter
  (lines 179-186) misses some wrap-around offsets: -17 and 15 from the a-file, 6 from the b-file, -6
  from the g-file, and -15 and 17 from the h-file. So from a4 (index 24) the
  knight reaches h1 (7) and h5 (39). `Moves.KnightJumpUnlessWrap` states
  exactly which destinations are real knight jumps. The king's filter is
  complete (`Moves.KingMovesAdjacent`).
- **Caches after a refusal.** A move refused by the check test regenerates
  every cache from the restored board (line 371). On a state whose caches
  are already fresh, this changes nothing (`Rules.CheckRejection`). From the
  constructor's caches it does change the state
  (`Scenarios.RefusalChangesCaches`), and after it a2-e2 is refused
  (`Scenarios.A2E2RefusedAfterRefusal`). Board, turn and game state never
  change on a refusal.
- **Label case.** Labels are not case-normalised: `"A1"` is rejected
  (`Squares.OnlyLowerCaseLabels`).

## Model

| member | source | states |
|---|---|---|
| Squares.BuildBoardIndex | ChessVar.py:243-246 | builds 64 labels in rank-major order. Label `i` is file letter `i % 8` followed by rank digit `i / 8 + 1`, and the list equals the reference table `BoardIndex` |
| Squares.Find | ChessVar.py:328 | `list.index`: returns the first position holding the label, and `None` exactly when the label is absent |
| Squares.IndexOf | ChessVar.py:327-330 | a label's index is its position in the board index, and a string that is no square label has none; `Squares.IndexOfIsParse` and `Squares.LabelRoundTrip` characterise it |
| Squares.IndexOfIsParse | ChessVar.py:327-330 | looking a label up in the board index agrees, for every string, with the independent two-character decoder (file `a`-`h`, rank `1`-`8`) |
| Squares.LabelRoundTrip | ChessVar.py:243-246 | every index's label looks up to that index, and a string looks up to index `i` exactly when it is `i`'s label |
| Squares.OnlyLowerCaseLabels | ChessVar.py:327-330 | a string is a square exactly when it is lower-case file plus rank digit; `"A1"`, `"a9"` and `"a10"` are not squares |
| Moves.RookMoves | ChessVar.py:50-98 | the rook's rays down, up, left and right, in that order; `Moves.RookMovesOnLines` and `Moves.RookReaches` characterise its squares in both directions |
| Moves.BishopMoves | ChessVar.py:108-156 | the bishop's four diagonal rays; `Moves.BishopMovesOnDiagonals` and `Moves.BishopReaches` characterise its squares in both directions |
| Moves.KnightOffsetsFor | ChessVar.py:176-186 | the knight's offsets sliced by the origin's column, tabulated by `Moves.KnightOffsetsTable` |
| Moves.KnightMoves | ChessVar.py:166-195 | the on-board squares at the kept knight offsets, in offset order; `Moves.KnightDestinations` and `Moves.KnightJumpUnlessWrap` characterise them |
| Moves.KingOffsetsFor | ChessVar.py:215-221 | the king's offsets sliced by the origin's column, tabulated by `Moves.KingOffsetsTable` |
| Moves.KingMoves | ChessVar.py:205-230 | the on-board squares at the kept king offsets; `Moves.KingMovesAdjacent` shows they are exactly the adjacent squares |
| Moves.Gen | ChessVar.py:306-307 | each piece's own generator, chosen by its kind; `Moves.GenOnBoard` and `Moves.GenCannotReach` bound what it yields |
| Moves.Ray | ChessVar.py:63-68 | one direction of a slide: at most `n` squares, square `k` is `k + 1` steps out, every square before the last is empty, and a ray that stops early ends on an occupied square |
| Moves.RayContains | ChessVar.py:63-92 | reference description of a ray: a square is on it exactly when it is some step within reach and every earlier step is empty |
| Moves.SlideGeometry | ChessVar.py:121-150 | square `k` of a slide is on the board, `k + 1` rows and columns away in the slide's direction, so no slide wraps around an edge |
| Moves.RookMovesOnLines | ChessVar.py:63-92 | every rook destination is on the board, differs from the origin, shares exactly one of row and column with it, and has nothing occupied strictly between |
| Moves.SlideReachesEdge | ChessVar.py:63-92 | a slide's loop runs every step that keeps both row and column on the board |
| Moves.PathReaches | ChessVar.py:63-92 | the square `m` steps out in a direction is on the slide when every square before it is empty, so a slide stops only at the first occupied square or the edge |
| Moves.RookReaches | ChessVar.py:63-92 | a square on the origin's row or column, with every square strictly between empty, is a rook destination |
| Moves.BishopReaches | ChessVar.py:121-150 | a square on one of the origin's diagonals, with every square strictly between empty, is a bishop destination |
| Moves.RookCannotReach | ChessVar.py:63-92 | whatever the occupancy, a rook never reaches a square off its row and column |
| Moves.BishopMovesOnDiagonals | ChessVar.py:121-150 | every bishop destination is on the board, differs from the origin, lies on one of its diagonals, and has nothing occupied strictly between |
| Moves.BishopCannotReach | ChessVar.py:121-150 | whatever the occupancy, a bishop never reaches a square off its diagonals |
| Moves.Shift | ChessVar.py:189 | the offset comprehension keeps a square exactly when it is on the board and its offset from the origin is in the list |
| Moves.KnightOffsetsTable | ChessVar.py:176-186 | the knight's offset list for each origin column after the engine's slicing |
| Moves.KnightDestinations | ChessVar.py:176-189 | the knight destinations are exactly the on-board squares whose offset the column filter keeps |
| Moves.KnightJumpUnlessWrap | ChessVar.py:176-189 | a knight destination is a real knight jump (two rows and one column, or one row and two columns) exactly when its offset is not one of the wrapping ones the filter misses |
| Moves.KnightWrapsFromFileA | ChessVar.py:179-189 | from any a-file origin the knight keeps -17 and 15, which wrap to the h-file three rows down and one row up, neither a knight jump; from a4 (24) that is h1 (7) and h5 (39) |
| Moves.KnightCannotReach | ChessVar.py:176-189 | a square whose offset is not a knight offset is never a knight destination |
| Moves.KingOffsetsTable | ChessVar.py:215-221 | the king's offset list for each origin column after the engine's slicing |
| Moves.KingMovesAdjacent | ChessVar.py:215-224 | the king destinations are exactly the on-board squares other than the origin at most one row and one column away |
| Moves.KingCannotReach | ChessVar.py:215-224 | a square more than one row or column away is never a king destination |
| Moves.GenOnBoard | ChessVar.py:50-224 | every generated destination of every kind of piece is on the board and differs from the origin |
| Moves.GenExact | ChessVar.py:50-230 | a piece's generated list holds exactly the squares its pattern reaches on the given occupancy: adjacent for a king, a kept offset for a knight, a line or diagonal square with nothing occupied strictly between for a rook or bishop |
| Moves.GenCannotReach | ChessVar.py:50-224 | no occupancy lets a piece generate a square outside its movement pattern |
| Game.Initial | ChessVar.py:235-265 | the constructor: opening layout, caches for an empty occupancy, threat sets as unions, White on turn, game unfinished; `Invariant.InitialInv` states what holds of it |
| Game.Refresh | ChessVar.py:299-311 | `update_moves`: every cache regenerated from the occupied squares and both threat sets rebuilt; `Rules.RefreshThreatsExact` characterises the threat sets, from `Rules.RefreshThreatsSound` and `Rules.RefreshThreatsComplete` |
| Game.InCheck | ChessVar.py:313-322 | `check_checker`: some king stands on a square the other colour threatens; `Opening.KingsSafe` and `Scenarios.AfterA2H2Check` use it in both outcomes |
| Game.GameUpdate | ChessVar.py:275-297 | `game_update`: the turn and terminal transition, tabulated by `Rules.TurnTable` |
| Game.MakeMove | ChessVar.py:324-377 | `make_move`: guards, tentative move, check test and revert; `Rules.EarlyRejection`, `Rules.CheckRejection`, `Rules.AcceptedIff`, `Rules.AcceptedMove` and `Invariant.MakeMoveKeepsInv` state what it promises |
| Rules.EarlyRejection | ChessVar.py:327-358 | each early guard refuses the move and leaves the whole state unchanged: an unknown destination label, an origin that is not an occupied square, a finished game, a piece not on turn, a destination not in the cached list, or a destination held by the mover's colour |
| Rules.RefreshThreatsSound | ChessVar.py:299-311 | after the rebuild every threatened square is on the board, and some piece of the threatening colour, standing elsewhere, reaches it by its pattern on the current board |
| Rules.RefreshThreatsComplete | ChessVar.py:299-311 | after the rebuild a piece's colour threatens every adjacent square of a king, every kept-offset square of a knight, and every square of a rook's lines or a bishop's diagonals with nothing strictly between |
| Rules.RefreshThreatsExact | ChessVar.py:299-311 | after the rebuild a square is in a colour's threat set exactly when some piece of that colour reaches it by its pattern on the current board |
| Rules.UndoRelocate | ChessVar.py:361-370 | the revert puts the mover back on its origin with its original index and restores any captured piece, giving back the original board, even for a move onto its own square |
| Rules.CheckRejection | ChessVar.py:366-372 | a refusal never changes board, turn or game state. A move refused by the check test yields the original board with every cache rebuilt, which on a well-formed board with fresh caches is exactly the original state; no precondition on the state |
| Rules.AcceptedIff | ChessVar.py:324-377 | a move is accepted exactly when both labels are squares, every guard passes and the tentative position leaves neither king attacked |
| Rules.AcceptedMove | ChessVar.py:359-377 | an accepted move yields the relocated board with fresh caches, threat sets equal to the unions of the lists, and neither king attacked; well-formedness is preserved |
| Rules.TurnTable | ChessVar.py:275-297 | after White, Black is on turn. After Black, White alone home wins for White, both home ties, Black alone home wins for Black, and otherwise White is on turn |
| Opening.Unthreatened | ChessVar.py:305-311 | a square no list of a colour contains is outside that colour's threat set |
| Opening.BeyondReach | ChessVar.py:305-311 | a square out of the pattern of every piece of a colour is outside that colour's threat set, whatever the occupancy |
| Opening.WhiteMissesH1 | ChessVar.py:256-265 | in the opening layout h1 is outside White's threat set, whatever occupancy the caches were built against |
| Opening.BlackMissesA1 | ChessVar.py:256-265 | in the opening layout a1 is outside Black's threat set, whatever occupancy the caches were built against |
| Opening.WhiteOutOfReachH1 | ChessVar.py:249-253 | every White piece of the opening layout is, by its movement pattern, unable to reach h1 |
| Opening.BlackOutOfReachA1 | ChessVar.py:249-253 | every Black piece of the opening layout is, by its movement pattern, unable to reach a1 |
| Opening.KingsSafe | ChessVar.py:313-322 | a board whose kings stand outside the other colour's threat set is not in check |
| Opening.OpeningNotInCheck | ChessVar.py:256-265 | the opening layout is not in check, for caches built against any occupancy |
| Opening.OpeningKings | ChessVar.py:249-253 | the opening layout's only kings are White's on a1 and Black's on h1, and each piece's index is its key |
| Invariant.OpeningKingSets | ChessVar.py:249-253 | the opening has exactly one king per colour |
| Invariant.OpeningLayoutInv | ChessVar.py:249-265 | the opening layout, with caches generated for an empty board and threat sets equal to their unions, satisfies the invariant |
| Invariant.InitialInv | ChessVar.py:235-265 | the constructor's state satisfies the invariant |
| Invariant.CacheOffOrigin | ChessVar.py:299-311 | under the invariant no cached list contains its own square |
| Invariant.KingCaptureMeansCheck | ChessVar.py:353-358 | an admissible move onto a king means that king was already attacked |
| Invariant.KingsAfterRelocate | ChessVar.py:361-362 | where the kings stand after a relocation that captures no king |
| Invariant.OneKingAfterRelocate | ChessVar.py:361-362 | a relocation that captures no king keeps one king per colour |
| Invariant.MakeMoveKeepsInv | ChessVar.py:324-377 | every call keeps the invariant: one king per colour, indices equal to keys, threat sets equal to the unions, neither king attacked, and caches fresh or the constructor's |
| Invariant.PlayKeepsInv | ChessVar.py:324-377 | any sequence of calls keeps the invariant |
| Invariant.ReachableStates | ChessVar.py:235-265 | every state reachable from the constructor has exactly one king per colour, each piece's index equal to its key, and neither king attacked |
| Invariant.KingHomeIsKingRow | ChessVar.py:278-294 | with one king per colour, "some king of colour c on row 7" is exactly "that colour's king on row 7", which is what the first-element lookup reads |
| Invariant.FinishedGameFrozen | ChessVar.py:346-348 | once the game is finished, every further sequence of calls leaves the state unchanged |
| Scenarios.RowTwoLabels | ChessVar.py:243-246 | `"a2"`, `"e2"` and `"h2"` are the squares 8, 12 and 15 |
| Scenarios.EmptyRowFromA2 | ChessVar.py:259-261 | with the constructor's empty occupancy, the a2 rook's list holds e2 and h2 |
| Scenarios.BlockedRowFromA2 | ChessVar.py:86-92 | with the real occupancy, the a2 rook keeps b2, where it is stopped, and cannot reach e2 |
| Scenarios.AfterA2E2Safe | ChessVar.py:313-322 | after a2-e2 neither king is attacked |
| Scenarios.RookPassesThroughOpening | ChessVar.py:259-263 | the opening move a2-e2 is accepted although b2, c2 and d2 lie between; the rook stands on e2 and Black is on turn |
| Scenarios.AfterA2H2Check | ChessVar.py:313-322 | after a2xh2 the White rook attacks the Black king on h1 |
| Scenarios.A2H2Refused | ChessVar.py:366-372 | a2xh2 from the opening is refused, returning the opening board with every cache rebuilt |
| Scenarios.RefusalChangesCaches | ChessVar.py:371 | that rebuild removes e2 from the a2 rook's list, so the state differs from the constructor's |
| Scenarios.A2E2RefusedAfterRefusal | ChessVar.py:353-354 | after the refusal, a2-e2 is refused |

## Left out

- `print_board`, the script entry point and the piece symbols: console
  output only.
- The generators' probe-square parameter (`test_location`): no caller in the
  engine passes it.
- Dictionary iteration order. Every piece's list is generated against the
  same occupancy, so the order does not affect the caches, the threat sets or
  the check test.
- The `IndexError` the `[0]` lookups of `game_update` would raise with no
  king of a colour on the board. Every reachable state has one king per
  colour (`Invariant.ReachableStates`), so it cannot happen.
- The second `set_pos` after an accepted move (line 375): it writes the index
  already stored.
- Integer width: indices stay within 0..63 plus small offsets, so Python's
  unbounded integers and Dafny's agree.
